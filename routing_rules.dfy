/** Routing schemes as the editing page holds them: an ordered list of rules,
    each with an optional content filter, fetch and publish actions, an exit
    flag and a schedule. `oid` fields stand for JavaScript object identity
    (what `===` compares); everything else is the rule's content (what
    lodash's object matching compares). */
module RoutingRules {
  import opened Common
  import opened Lists

  datatype Subscriber = Subscriber(id: string, name: string)

  /** A subscriber type a publish action targets; `deny` marks an exclusion. */
  datatype TargetType = TargetType(name: string, deny: bool)

  /** One fetch or publish action (`{desk, stage, macro, target_subscribers,
      target_types}`); fetch actions leave the two target lists absent. */
  datatype RoutingAction = RoutingAction(
    oid: nat,
    desk: Field<string>,
    stage: Field<string>,
    macro: Field<string>,
    targetSubscribers: Field<seq<Subscriber>>,
    targetTypes: Field<seq<TargetType>>)

  datatype Actions = Actions(fetch: seq<RoutingAction>, publish: seq<RoutingAction>, exit: bool)

  datatype Schedule = Schedule(dayOfWeek: seq<string>, hourFrom: string, hourTo: string)

  datatype Rule = Rule(
    oid: nat,
    name: Field<string>,
    filter: Field<string>,
    filterName: Field<string>,
    actions: Actions,
    schedule: Schedule)

  /** A content filter as listed by the content-filter service. */
  datatype ContentFilter = ContentFilter(id: string, name: string)

  const AllDays: seq<string> := ["MON", "TUE", "WED", "THU", "FRI", "SAT", "SUN"]

  /** The rule `addRule` creates: unnamed, no filter, no actions, no early
      exit, active every day from 00:00:00 to 23:55:00. */
  function DefaultRule(oid: nat): (r: Rule)
    ensures r.oid == oid && r.name == Null && r.filter == Null && r.filterName == Absent
    ensures r.actions.fetch == [] && r.actions.publish == [] && !r.actions.exit
    ensures r.schedule.dayOfWeek == AllDays
    ensures r.schedule.hourFrom == "00:00:00" && r.schedule.hourTo == "23:55:00"
  {
    Rule(oid, Null, Null, Absent, Actions([], [], false), Schedule(AllDays, "00:00:00", "23:55:00"))
  }

  /** `_.find(filters, {_id: id})`: the first filter whose id is `id`. A rule
      without a filter id (null or missing) finds none. */
  function FindFilter(filters: seq<ContentFilter>, id: Field<string>): (r: Option<ContentFilter>)
    ensures r.Some? ==> id.Present? && r.value in filters && r.value.id == id.value
    ensures r.None? ==> forall i :: 0 <= i < |filters| ==> !(id.Present? && filters[i].id == id.value)
  {
    if |filters| == 0 || !id.Present? then None
    else if filters[0].id == id.value then Some(filters[0])
    else FindFilter(filters[1..], id)
  }

  /** Two actions with the same content, whatever their identity. */
  predicate SameAction(a: RoutingAction, b: RoutingAction)
  {
    a.(oid := 0) == b.(oid := 0)
  }

  predicate SameActions(p: seq<RoutingAction>, q: seq<RoutingAction>)
  {
    |p| == |q| && forall i :: 0 <= i < |p| ==> SameAction(p[i], q[i])
  }

  /** A property the pattern lacks matches anything; one it has must be
      equal. */
  predicate FieldMatches<T(==)>(pattern: Field<T>, value: Field<T>)
  {
    pattern.Absent? || pattern == value
  }

  /** `_.matches(pattern)(r)`: every property the pattern has is equal in
      `r`. Identity is not compared, and a property the pattern lacks
      (`name`, `filter` or `filterName`) matches a rule with any value. */
  predicate Matches(pattern: Rule, r: Rule)
  {
    && FieldMatches(pattern.name, r.name)
    && FieldMatches(pattern.filter, r.filter)
    && FieldMatches(pattern.filterName, r.filterName)
    && SameActions(pattern.actions.fetch, r.actions.fetch)
    && SameActions(pattern.actions.publish, r.actions.publish)
    && pattern.actions.exit == r.actions.exit
    && pattern.schedule == r.schedule
  }

  /** `_.remove(rules, pattern)`: drop every rule the pattern matches. */
  function RemoveMatching(rules: seq<Rule>, pattern: Rule): (r: seq<Rule>)
    ensures forall i :: 0 <= i < |r| ==> r[i] in rules && !Matches(pattern, r[i])
    ensures forall i :: 0 <= i < |rules| && !Matches(pattern, rules[i]) ==> rules[i] in r
  {
    Filter(rules, (x: Rule) => !Matches(pattern, x))
  }

  /** A rule always matches itself, so removing a listed rule takes it out. */
  lemma RemoveMatchingRemoves(rules: seq<Rule>, pattern: Rule)
    ensures pattern !in RemoveMatching(rules, pattern)
  {
    assert Matches(pattern, pattern);
  }

  /** Where `save` puts the pending rule: `ruleIndex === -1` pushes it,
      `rules[ruleIndex] = rule` replaces an element or, at the length,
      appends; any other key (null, another negative number) is a plain
      property of the array and leaves the elements alone. */
  function PlacePending(rules: seq<Rule>, pending: Option<Rule>, ruleIndex: Option<int>): seq<Rule>
    requires ruleIndex.Some? ==> ruleIndex.value <= |rules|
  {
    match pending
    case None => rules
    case Some(rule) =>
      if ruleIndex == Some(-1) || ruleIndex == Some(|rules|) then rules + [rule]
      else if ruleIndex.Some? && 0 <= ruleIndex.value then rules[ruleIndex.value := rule]
      else rules
  }

  predicate Unnamed(r: Rule)
  {
    r.name == Null
  }

  /** `_.reject(rules, {name: null})`: a rule whose name is missing or
      empty is kept; only an explicit `null` is dropped. */
  function RejectUnnamed(rules: seq<Rule>): seq<Rule>
  {
    Filter(rules, (r: Rule) => !Unnamed(r))
  }

  /** `delete r.filterName` on every rule. */
  function StripFilterNames(rules: seq<Rule>): (r: seq<Rule>)
    ensures |r| == |rules|
    ensures forall i :: 0 <= i < |r| ==> r[i] == rules[i].(filterName := Absent)
  {
    if |rules| == 0 then [] else [rules[0].(filterName := Absent)] + StripFilterNames(rules[1..])
  }

  /** The rule list `save` hands to the persistence layer. */
  function SaveRules(rules: seq<Rule>, pending: Option<Rule>, ruleIndex: Option<int>): (r: seq<Rule>)
    requires ruleIndex.Some? ==> ruleIndex.value <= |rules|
    ensures forall i :: 0 <= i < |r| ==> r[i].name != Null && r[i].filterName == Absent
  {
    StripFilterNames(RejectUnnamed(PlacePending(rules, pending, ruleIndex)))
  }

  lemma StripAppend(a: seq<Rule>, b: seq<Rule>)
    ensures StripFilterNames(a + b) == StripFilterNames(a) + StripFilterNames(b)
  {
    var l, r := StripFilterNames(a + b), StripFilterNames(a) + StripFilterNames(b);
    assert |l| == |r|;
    forall i | 0 <= i < |l| ensures l[i] == r[i] {
      if i < |a| {
        assert (a + b)[i] == a[i];
      } else {
        assert (a + b)[i] == b[i - |a|];
      }
    }
  }

  /** Every named rule of the edited list is saved without its
      `filterName`. */
  lemma SavedRulesAreNamed(rules: seq<Rule>, pending: Option<Rule>, ruleIndex: Option<int>)
    requires ruleIndex.Some? ==> ruleIndex.value <= |rules|
    ensures var placed, saved := PlacePending(rules, pending, ruleIndex), SaveRules(rules, pending, ruleIndex);
            forall i :: 0 <= i < |placed| && placed[i].name != Null ==> placed[i].(filterName := Absent) in saved
  {
    var placed := PlacePending(rules, pending, ruleIndex);
    var kept := RejectUnnamed(placed);
    var saved := StripFilterNames(kept);
    forall i | 0 <= i < |placed| && placed[i].name != Null
      ensures placed[i].(filterName := Absent) in saved
    {
      assert placed[i] in kept;
      var j :| 0 <= j < |kept| && kept[j] == placed[i];
      assert saved[j] == placed[i].(filterName := Absent);
    }
  }

  /** With `ruleIndex` -1, the pending named rule ends up last, after the
      saved form of the rules that were there. */
  lemma SaveAppendsPending(rules: seq<Rule>, rule: Rule)
    requires rule.name != Null
    ensures SaveRules(rules, Some(rule), Some(-1)) == SaveRules(rules, None, None) + [rule.(filterName := Absent)]
  {
    assert PlacePending(rules, Some(rule), Some(-1)) == rules + [rule];
    assert RejectUnnamed(rules + [rule]) == RejectUnnamed(rules) + [rule] by {
      FilterAppend(rules, [rule], (r: Rule) => !Unnamed(r));
    }
    StripAppend(RejectUnnamed(rules), [rule]);
  }

  /** With an index inside the list, the pending named rule takes the place
      of the rule there; the rules before and after it are saved as usual. */
  lemma SaveReplacesAtIndex(rules: seq<Rule>, rule: Rule, i: nat)
    requires i < |rules| && rule.name != Null
    ensures SaveRules(rules, Some(rule), Some(i))
         == SaveRules(rules[..i], None, None) + [rule.(filterName := Absent)] + SaveRules(rules[i + 1..], None, None)
  {
    var keep := (r: Rule) => !Unnamed(r);
    var a, b := rules[..i], rules[i + 1..];
    assert PlacePending(rules, Some(rule), Some(i)) == (a + [rule]) + b;
    FilterAppend(a + [rule], b, keep);
    FilterAppend(a, [rule], keep);
    assert Filter([rule], keep) == [rule];
    var fa, fb := Filter(a, keep), Filter(b, keep);
    assert RejectUnnamed((a + [rule]) + b) == (fa + [rule]) + fb;
    StripAppend(fa + [rule], fb);
    StripAppend(fa, [rule]);
    assert StripFilterNames([rule]) == [rule.(filterName := Absent)];
    assert SaveRules(a, None, None) == StripFilterNames(fa);
    assert SaveRules(b, None, None) == StripFilterNames(fb);
  }

  /** Saving what was saved, with no pending rule, changes nothing. */
  lemma SaveIdempotent(rules: seq<Rule>, pending: Option<Rule>, ruleIndex: Option<int>)
    requires ruleIndex.Some? ==> ruleIndex.value <= |rules|
    ensures var saved := SaveRules(rules, pending, ruleIndex);
            SaveRules(saved, None, None) == saved
  {
    var saved := SaveRules(rules, pending, ruleIndex);
    SavedRulesAreNamed(rules, pending, ruleIndex);
    FilterAllKept(saved, (r: Rule) => !Unnamed(r));
  }
}
