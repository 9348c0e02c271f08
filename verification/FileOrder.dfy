// Exactly when the order of the rules in the file matters to a decision.
module FileOrder {
  import opened Wrappers
  import opened MachineInt
  import opened Domain
  import opened WindowRules

  ghost predicate IsPermutation(a: seq<WindowRule>, b: seq<WindowRule>) { multiset(a) == multiset(b) }

  /** `rule` sets the field for this window. */
  ghost predicate Sets<T>(rule: WindowRule, input: RuleInput, get: WindowRule -> Option<T>) {
    Applies(rule, input) && get(rule).Some?
  }

  /** `rule` sets the field and no rule that does has a greater key. */
  ghost predicate IsTopSetter<T>(rule: WindowRule, rules: seq<WindowRule>, input: RuleInput, get: WindowRule -> Option<T>) {
    && rule in rules && Sets(rule, input, get)
    && forall r :: r in rules && Sets(r, input, get) ==> !RuleLess(rule, r)
  }

  /** All top setters of a field agree on its value. */
  ghost predicate TopsAgree<T>(rules: seq<WindowRule>, input: RuleInput, get: WindowRule -> Option<T>) {
    forall r, r' :: IsTopSetter(r, rules, input, get) && IsTopSetter(r', rules, input, get) ==> get(r) == get(r')
  }

  const LAYER := (r: WindowRule) => r.actions.layer
  const MODE := (r: WindowRule) => r.actions.columnMode
  const WIDTH := (r: WindowRule) => r.actions.width
  const MANAGED := (r: WindowRule) => r.actions.managed

  ghost predicate AllTopsAgree(rules: seq<WindowRule>, input: RuleInput) {
    TopsAgree(rules, input, LAYER) && TopsAgree(rules, input, MODE) && TopsAgree(rules, input, WIDTH) && TopsAgree(rules, input, MANAGED)
  }

  // ---- one field -------------------------------------------------------------------------------

  lemma {:induction false} LastSetIsTop<T>(rules: seq<WindowRule>, input: RuleInput, get: WindowRule -> Option<T>)
    requires Sorted(rules) && exists r :: r in rules && Sets(r, input, get)
    ensures exists r :: IsTopSetter(r, rules, input, get) && LastSet(rules, input, get) == get(r)
  {
    var front, last := rules[..|rules| - 1], rules[|rules| - 1];
    assert rules == front + [last];
    hide RuleMatches;
    if Sets(last, input, get) {
      RuleOrder(last, last, last);
      assert IsTopSetter(last, rules, input, get);
    } else {
      LastSetIsTop(front, input, get);
      var r :| IsTopSetter(r, front, input, get) && LastSet(front, input, get) == get(r);
      assert IsTopSetter(r, rules, input, get);
    }
  }

  /** A top setter that comes last in the file decides the field. */
  lemma {:induction false} InsertedTopDecides<T>(rule: WindowRule, rules: seq<WindowRule>, input: RuleInput, get: WindowRule -> Option<T>)
    requires Sets(rule, input, get)
    requires forall r :: r in rules && Sets(r, input, get) ==> !RuleLess(rule, r)
    ensures LastSet(Insert(rule, rules), input, get) == get(rule)
  {
    hide RuleMatches, RuleLess;
    if rules != [] && RuleLess(rule, rules[|rules| - 1]) {
      var front, last := rules[..|rules| - 1], rules[|rules| - 1];
      assert last in rules;
      InsertedTopDecides(rule, front, input, get);
      assert (Insert(rule, front) + [last])[..|Insert(rule, front)|] == Insert(rule, front);
    } else {
      assert (rules + [rule])[..|rules|] == rules;
    }
  }

  /** The permutation that moves rule i to the end of the file. */
  function MovedLast(rules: seq<WindowRule>, i: nat): seq<WindowRule>
    requires i < |rules|
  {
    rules[..i] + rules[i + 1..] + [rules[i]]
  }

  lemma MovedLastPermutes(rules: seq<WindowRule>, i: nat)
    requires i < |rules|
    ensures IsPermutation(rules, MovedLast(rules, i))
  {
    assert rules == rules[..i] + [rules[i]] + rules[i + 1..];
  }

  lemma MovedTopDecides<T>(rules: seq<WindowRule>, i: nat, input: RuleInput, get: WindowRule -> Option<T>)
    requires i < |rules| && IsTopSetter(rules[i], rules, input, get)
    ensures LastSet(SortRules(MovedLast(rules, i)), input, get) == get(rules[i])
  {
    var rest := rules[..i] + rules[i + 1..];
    var all := MovedLast(rules, i);
    assert all[..|all| - 1] == rest && all[|all| - 1] == rules[i];
    SameMembers(rest);
    hide RuleMatches, RuleLess;
    assert forall r :: r in rest ==> r in rules;
    InsertedTopDecides(rules[i], SortRules(rest), input, get);
  }

  lemma TopOfPermutation<T>(a: seq<WindowRule>, b: seq<WindowRule>, input: RuleInput, get: WindowRule -> Option<T>)
    requires IsPermutation(a, b)
    ensures forall r :: IsTopSetter(r, b, input, get) <==> IsTopSetter(r, a, input, get)
    ensures (exists r :: r in b && Sets(r, input, get)) <==> exists r :: r in a && Sets(r, input, get)
  {
    SamePermutationMembers(a, b);
    hide Sets, RuleLess;
  }

  lemma SamePermutationMembers(a: seq<WindowRule>, b: seq<WindowRule>)
    requires IsPermutation(a, b)
    ensures forall r :: r in a <==> r in b
  {
    forall r
      ensures r in a <==> r in b
    {
      assert r in multiset(a) <==> r in multiset(b);
    }
  }

  /** Where the top setters agree, every file order gives the field the same value. */
  lemma AgreementDecides<T>(a: seq<WindowRule>, b: seq<WindowRule>, input: RuleInput, get: WindowRule -> Option<T>)
    requires IsPermutation(a, b) && TopsAgree(a, input, get)
    ensures LastSet(SortRules(b), input, get) == LastSet(SortRules(a), input, get)
  {
    SortSorts(a);
    SortSorts(b);
    TopOfPermutation(a, SortRules(a), input, get);
    TopOfPermutation(a, SortRules(b), input, get);
    hide IsTopSetter, SortRules, Sets;
    if exists r :: r in a && Sets(r, input, get) {
      LastSetIsTop(SortRules(a), input, get);
      LastSetIsTop(SortRules(b), input, get);
    } else {
      NothingSet(SortRules(a), input, get);
      NothingSet(SortRules(b), input, get);
    }
  }

  lemma {:induction false} NothingSet<T>(rules: seq<WindowRule>, input: RuleInput, get: WindowRule -> Option<T>)
    requires !exists r :: r in rules && Sets(r, input, get)
    ensures LastSet(rules, input, get) == None
  {
    if rules != [] {
      assert rules[|rules| - 1] in rules;
      NothingSet(rules[..|rules| - 1], input, get);
    }
  }

  // ---- the reported ids ------------------------------------------------------------------------

  type Key = (i32, string)

  predicate KeyLess(a: Key, b: Key) { a.0 < b.0 || (a.0 == b.0 && StringLess(a.1, b.1)) }

  function KeyOf(rule: WindowRule): Key { (rule.priority, rule.id) }

  /** The keys of the rules that apply to this window, in order. */
  function ApplicableKeys(rules: seq<WindowRule>, input: RuleInput): seq<Key> {
    if rules == [] then []
    else ApplicableKeys(rules[..|rules| - 1], input) + if Applies(rules[|rules| - 1], input) then [KeyOf(rules[|rules| - 1])] else []
  }

  function SecondOf(keys: seq<Key>): seq<string> { seq(|keys|, i requires 0 <= i < |keys| => keys[i].1) }

  lemma {:induction false} MatchedIdsAreKeys(rules: seq<WindowRule>, input: RuleInput, config: ConfigProjection)
    ensures Decide(rules, input, config).matchedRuleIds == SecondOf(ApplicableKeys(rules, input))
  {
    hide Applies;
    if rules != [] {
      MatchedIdsAreKeys(rules[..|rules| - 1], input, config);
    }
  }

  ghost predicate KeysSorted(keys: seq<Key>) {
    forall i, j :: 0 <= i < j < |keys| ==> !KeyLess(keys[j], keys[i])
  }

  lemma {:induction false} ApplicableKeysAreSorted(rules: seq<WindowRule>, input: RuleInput)
    requires Sorted(rules)
    ensures KeysSorted(ApplicableKeys(rules, input))
    ensures forall k :: k in ApplicableKeys(rules, input) ==> exists r :: r in rules && k == KeyOf(r)
  {
    hide Applies, StringLess;
    if rules != [] {
      var front, last := rules[..|rules| - 1], rules[|rules| - 1];
      ApplicableKeysAreSorted(front, input);
      assert rules == front + [last];
      forall i | 0 <= i < |ApplicableKeys(front, input)|
        ensures !KeyLess(KeyOf(last), ApplicableKeys(front, input)[i])
      {
        assert ApplicableKeys(front, input)[i] in ApplicableKeys(front, input);
        var r :| r in front && ApplicableKeys(front, input)[i] == KeyOf(r);
        var n :| 0 <= n < |front| && front[n] == r;
        assert rules[n] == r;
      }
    }
  }

  lemma {:induction false} ApplicableKeysOfSum(a: seq<WindowRule>, b: seq<WindowRule>, input: RuleInput)
    ensures ApplicableKeys(a + b, input) == ApplicableKeys(a, input) + ApplicableKeys(b, input)
  {
    hide Applies;
    if b == [] {
      assert a + b == a;
    } else {
      assert (a + b)[..|a + b| - 1] == a + b[..|b| - 1];
      ApplicableKeysOfSum(a, b[..|b| - 1], input);
    }
  }

  /** Taking rule i out takes its key out, if it applies. */
  lemma KeysWithout(rules: seq<WindowRule>, i: nat, input: RuleInput)
    requires i < |rules|
    ensures multiset(ApplicableKeys(rules, input))
         == multiset(ApplicableKeys(rules[..i] + rules[i + 1..], input)) + multiset(ApplicableKeys([rules[i]], input))
  {
    hide Applies;
    assert rules == rules[..i] + [rules[i]] + rules[i + 1..];
    ApplicableKeysOfSum(rules[..i], rules[i + 1..], input);
    ApplicableKeysOfSum(rules[..i] + [rules[i]], rules[i + 1..], input);
    ApplicableKeysOfSum(rules[..i], [rules[i]], input);
    hide ApplicableKeys;
  }

  lemma PermutationWithout(a: seq<WindowRule>, b: seq<WindowRule>) returns (i: nat)
    requires IsPermutation(a, b) && a != []
    ensures i < |b| && b[i] == a[|a| - 1]
    ensures IsPermutation(a[..|a| - 1], b[..i] + b[i + 1..])
  {
    var last := a[|a| - 1];
    assert last in multiset(a);
    assert last in multiset(b);
    i :| 0 <= i < |b| && b[i] == last;
    CountWithout(a, |a| - 1);
    CountWithout(b, i);
    assert a[..|a| - 1] + a[|a| - 1 + 1..] == a[..|a| - 1];
  }

  lemma CountWithout(rules: seq<WindowRule>, i: nat)
    requires i < |rules|
    ensures multiset(rules[..i] + rules[i + 1..]) == multiset(rules) - multiset{rules[i]}
  {
    assert rules == rules[..i] + [rules[i]] + rules[i + 1..];
  }

  lemma {:induction false} KeysOfPermutation(a: seq<WindowRule>, b: seq<WindowRule>, input: RuleInput)
    requires IsPermutation(a, b)
    ensures multiset(ApplicableKeys(a, input)) == multiset(ApplicableKeys(b, input))
    decreases |a|
  {
    if a == [] {
      assert |b| == |multiset(b)| == 0;
    } else {
      var i := PermutationWithout(a, b);
      hide IsPermutation, ApplicableKeys;
      KeysOfPermutation(a[..|a| - 1], b[..i] + b[i + 1..], input);
      KeysWithout(b, i, input);
      KeysWithout(a, |a| - 1, input);
      assert a[..|a| - 1] + a[|a| - 1 + 1..] == a[..|a| - 1];
    }
  }

  lemma KeyOrder(a: Key, b: Key)
    ensures !KeyLess(a, b) && !KeyLess(b, a) ==> a == b
  {
    StringOrder(a.1, b.1, b.1);
  }

  lemma KeyHeadsAgree(a: seq<Key>, b: seq<Key>)
    requires KeysSorted(a) && KeysSorted(b) && multiset(a) == multiset(b) && a != [] && b != []
    ensures a[0] == b[0]
  {
    hide KeyLess;
    assert a[0] in multiset(b) && b[0] in multiset(a);
    var i :| 0 <= i < |b| && b[i] == a[0];
    var j :| 0 <= j < |a| && a[j] == b[0];
    KeyOrder(a[0], b[0]);
    assert i > 0 ==> !KeyLess(b[i], b[0]);
    assert j > 0 ==> !KeyLess(a[j], a[0]);
  }

  lemma KeyTails(keys: seq<Key>)
    requires KeysSorted(keys) && keys != []
    ensures KeysSorted(keys[1..]) && multiset(keys[1..]) == multiset(keys) - multiset{keys[0]}
  {
    hide KeyLess;
    assert keys == [keys[0]] + keys[1..];
  }

  lemma {:induction false} SortedKeysAreUnique(a: seq<Key>, b: seq<Key>)
    requires KeysSorted(a) && KeysSorted(b) && multiset(a) == multiset(b)
    ensures a == b
    decreases |a|
  {
    assert |a| == |multiset(a)| == |multiset(b)| == |b|;
    hide KeysSorted;
    if a != [] {
      KeyHeadsAgree(a, b);
      KeyTails(a);
      KeyTails(b);
      SortedKeysAreUnique(a[1..], b[1..]);
      assert a == [a[0]] + a[1..] && b == [b[0]] + b[1..];
    }
  }

  /** The reported ids never depend on the file order: rules that tie share their id. */
  lemma MatchedIdsIgnoreOrder(a: seq<WindowRule>, b: seq<WindowRule>, input: RuleInput, config: ConfigProjection)
    requires IsPermutation(a, b)
    ensures Decide(SortRules(a), input, config).matchedRuleIds == Decide(SortRules(b), input, config).matchedRuleIds
  {
    SortSorts(a);
    SortSorts(b);
    hide SortRules, Decide, ApplicableKeys, KeysSorted;
    MatchedIdsAreKeys(SortRules(a), input, config);
    MatchedIdsAreKeys(SortRules(b), input, config);
    ApplicableKeysAreSorted(SortRules(a), input);
    ApplicableKeysAreSorted(SortRules(b), input);
    KeysOfPermutation(SortRules(a), SortRules(b), input);
    SortedKeysAreUnique(ApplicableKeys(SortRules(a), input), ApplicableKeys(SortRules(b), input));
  }

  // ---- the decision ------------------------------------------------------------------------------

  /** No file order of these rules gives this window another decision. */
  ghost predicate OrderIsIrrelevant(a: seq<WindowRule>, input: RuleInput, config: ConfigProjection) {
    forall b :: IsPermutation(a, b) ==> Decide(SortRules(b), input, config) == Decide(SortRules(a), input, config)
  }

  lemma DecisionIsFields(a: seq<WindowRule>, b: seq<WindowRule>, input: RuleInput, config: ConfigProjection)
    requires IsPermutation(a, b)
    requires LastSet(SortRules(b), input, LAYER) == LastSet(SortRules(a), input, LAYER)
    requires LastSet(SortRules(b), input, MODE) == LastSet(SortRules(a), input, MODE)
    requires LastSet(SortRules(b), input, WIDTH) == LastSet(SortRules(a), input, WIDTH)
    requires LastSet(SortRules(b), input, MANAGED) == LastSet(SortRules(a), input, MANAGED)
    ensures Decide(SortRules(b), input, config) == Decide(SortRules(a), input, config)
  {
    DecisionFields(SortRules(a), input, config);
    DecisionFields(SortRules(b), input, config);
    MatchedIdsIgnoreOrder(a, b, input, config);
    hide SortRules, Decide, LastSet;
  }

  lemma DecisionFields(rules: seq<WindowRule>, input: RuleInput, config: ConfigProjection)
    ensures var d := Decide(rules, input, config);
            && d.layer == OrDefault(LastSet(rules, input, LAYER), Tiled)
            && d.managed == OrDefault(LastSet(rules, input, MANAGED), true)
            && d.columnMode == OrDefault(LastSet(rules, input, MODE), config.defaultColumnMode)
            && d.width == OrDefault(LastSet(rules, input, WIDTH), config.defaultColumnWidth)
            && d.widthExplicit == LastSet(rules, input, WIDTH).Some?
  {
    FieldsAreLastSet(rules, input, config);
  }

  /** Two top setters that disagree give two file orders that decide the field differently. */
  lemma DisagreementShows<T>(a: seq<WindowRule>, input: RuleInput, get: WindowRule -> Option<T>)
      returns (b: seq<WindowRule>, b': seq<WindowRule>)
    requires !TopsAgree(a, input, get)
    ensures IsPermutation(a, b) && IsPermutation(a, b')
    ensures var v, v' := LastSet(SortRules(b), input, get), LastSet(SortRules(b'), input, get);
            v.Some? && v'.Some? && v != v'
  {
    var r, r' :| IsTopSetter(r, a, input, get) && IsTopSetter(r', a, input, get) && get(r) != get(r');
    var i :| 0 <= i < |a| && a[i] == r;
    var i' :| 0 <= i' < |a| && a[i'] == r';
    b, b' := MovedLast(a, i), MovedLast(a, i');
    hide SortRules, LastSet, MovedLast;
    MovedLastPermutes(a, i);
    MovedLastPermutes(a, i');
    MovedTopDecides(a, i, input, get);
    MovedTopDecides(a, i', input, get);
  }

  /**
   * The file order is irrelevant to a decision exactly when, for each field, all setters that no other setter
   * outranks give it the same value.
   */
  lemma FileOrderMatters(a: seq<WindowRule>, input: RuleInput, config: ConfigProjection)
    ensures OrderIsIrrelevant(a, input, config) <==> AllTopsAgree(a, input)
  {
    hide SortRules, Decide, LastSet, TopsAgree;
    if AllTopsAgree(a, input) {
      forall b | IsPermutation(a, b)
        ensures Decide(SortRules(b), input, config) == Decide(SortRules(a), input, config)
      {
        AgreementDecides(a, b, input, LAYER);
        AgreementDecides(a, b, input, MODE);
        AgreementDecides(a, b, input, WIDTH);
        AgreementDecides(a, b, input, MANAGED);
        DecisionIsFields(a, b, input, config);
      }
    } else {
      var b, b';
      if !TopsAgree(a, input, LAYER) {
        b, b' := DisagreementShows(a, input, LAYER);
      } else if !TopsAgree(a, input, MODE) {
        b, b' := DisagreementShows(a, input, MODE);
      } else if !TopsAgree(a, input, WIDTH) {
        b, b' := DisagreementShows(a, input, WIDTH);
      } else {
        b, b' := DisagreementShows(a, input, MANAGED);
      }
      DecisionFields(SortRules(b), input, config);
      DecisionFields(SortRules(b'), input, config);
      assert IsPermutation(a, b) && IsPermutation(a, b');
    }
  }

  /** Rules with distinct keys have one top setter per field at most. */
  lemma DistinctKeysAgree(a: seq<WindowRule>, input: RuleInput)
    requires DistinctKeys(a)
    ensures AllTopsAgree(a, input)
  {
    OneTop(a, input, LAYER);
    OneTop(a, input, MODE);
    OneTop(a, input, WIDTH);
    OneTop(a, input, MANAGED);
  }

  lemma OneTop<T>(a: seq<WindowRule>, input: RuleInput, get: WindowRule -> Option<T>)
    requires DistinctKeys(a)
    ensures TopsAgree(a, input, get)
  {
    hide RuleMatches;
    forall r, r' | IsTopSetter(r, a, input, get) && IsTopSetter(r', a, input, get)
      ensures r == r'
    {
      RuleOrder(r, r', r');
      var i :| 0 <= i < |a| && a[i] == r;
      var j :| 0 <= j < |a| && a[j] == r';
    }
  }
}
