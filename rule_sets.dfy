/** The rule-set editing page (`sdIngestRulesContent`): a rule set is an
    ordered list of text rewrites applied to ingested items. */
module RuleSets {
  import opened Common
  import opened Lists

  /** One rewrite rule: `{old, new}`. */
  datatype Rewrite = Rewrite(oldText: Field<string>, newText: Field<string>)

  datatype RuleSet = RuleSet(id: Field<string>, name: Field<string>, rules: Option<seq<Rewrite>>)

  /** The rule `addRule` appends: `{old: null, new: null}`. */
  const BlankRewrite: Rewrite := Rewrite(Null, Null)

  /** `_.matches(pattern)(r)` on rewrites: a property the pattern lacks
      matches anything, one it has must be equal. */
  predicate RewriteMatches(pattern: Rewrite, r: Rewrite)
  {
    && (pattern.oldText.Absent? || pattern.oldText == r.oldText)
    && (pattern.newText.Absent? || pattern.newText == r.newText)
  }

  /** `_.remove(rules, rule)`: every rewrite the clicked one matches goes,
      not only the one clicked. */
  function RemoveRewrites(rules: seq<Rewrite>, rule: Rewrite): seq<Rewrite>
  {
    Filter(rules, (r: Rewrite) => !RewriteMatches(rule, r))
  }

  /** Removing a rewrite takes out every rewrite it matches and keeps every
      other one as often as it was listed. */
  lemma {:induction false} RemoveRewritesCounts(rules: seq<Rewrite>, rule: Rewrite)
    ensures forall x :: multiset(RemoveRewrites(rules, rule))[x] == if RewriteMatches(rule, x) then 0 else multiset(rules)[x]
  {
    if |rules| > 0 {
      var init, last := rules[..|rules| - 1], rules[|rules| - 1];
      RemoveRewritesCounts(init, rule);
      assert rules == init + [last];
    }
  }

  /** A rewrite with both texts set matches exactly its copies; one with no
      `new` text matches every rewrite with the same `old` text. */
  lemma RewriteMatchesCases(pattern: Rewrite, r: Rewrite)
    ensures !pattern.oldText.Absent? && !pattern.newText.Absent? ==> (RewriteMatches(pattern, r) <==> r == pattern)
    ensures !pattern.oldText.Absent? && pattern.newText.Absent? ==> (RewriteMatches(pattern, r) <==> r.oldText == pattern.oldText)
  {
  }

  class RuleSetEditor {
    /** `scope.editRuleset`: the rule set open for editing, if any. */
    var editRuleset: Option<RuleSet>

    constructor ()
      ensures editRuleset == None
    {
      editRuleset := None;
    }

    /** `edit(ruleset)`: open a copy whose rule list is the set's, or empty. */
    method Edit(ruleset: RuleSet)
      modifies this
      ensures editRuleset == Some(ruleset.(rules := Some(if ruleset.rules.Some? then ruleset.rules.value else [])))
    {
      var rules := if ruleset.rules.Some? then ruleset.rules.value else [];
      editRuleset := Some(ruleset.(rules := Some(rules)));
    }

    /** `cancel()`. */
    method Cancel()
      modifies this
      ensures editRuleset == None
    {
      editRuleset := None;
    }

    /** `addRule()`: a blank rewrite goes last; a missing list is created. */
    method AddRule()
      requires editRuleset.Some?
      modifies this
      ensures var before := if old(editRuleset).value.rules.Some? then old(editRuleset).value.rules.value else [];
              editRuleset == Some(old(editRuleset).value.(rules := Some(before + [BlankRewrite])))
    {
      var rules := if editRuleset.value.rules.Some? then editRuleset.value.rules.value else [];
      editRuleset := Some(editRuleset.value.(rules := Some(rules + [BlankRewrite])));
    }

    /** `removeRule(rule)`: drop every rewrite the rule matches; on a
        missing list lodash does nothing. */
    method RemoveRule(rule: Rewrite)
      requires editRuleset.Some?
      modifies this
      ensures var rs := old(editRuleset).value;
              editRuleset == Some(if rs.rules.Some? then rs.(rules := Some(RemoveRewrites(rs.rules.value, rule))) else rs)
    {
      var rs := editRuleset.value;
      if rs.rules.Some? {
        editRuleset := Some(rs.(rules := Some(RemoveRewrites(rs.rules.value, rule))));
      }
    }

    /** `reorder(start, end)`: drag the rewrite at `start` to `end`. */
    method Reorder(start: nat, end: int)
      requires editRuleset.Some? && editRuleset.value.rules.Some? && start < |editRuleset.value.rules.value|
      modifies this
      ensures var rs := old(editRuleset).value;
              editRuleset == Some(rs.(rules := Some(Move(rs.rules.value, start, end))))
    {
      var rs := editRuleset.value;
      editRuleset := Some(rs.(rules := Some(Move(rs.rules.value, start, end))));
    }
  }
}
