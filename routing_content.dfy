/** The routing-scheme editing page (`sdIngestRoutingContent`): the rules of
    the scheme being edited, the rule open for editing (`scope.rule`) and the
    content filters it can pick from. The open rule is the same object as its
    entry in the list, so a change made to it shows in both places; the
    `Coherent` invariant says exactly that. */
module RoutingContent {
  import opened Common
  import opened Lists
  import opened RoutingRules

  /** Every two entries with the same identity are the same object, hence
      equal, and the open rule agrees with its entries in the list. */
  predicate Coherent(rules: seq<Rule>, current: Option<Rule>)
  {
    && (forall i, j :: 0 <= i < |rules| && 0 <= j < |rules| && rules[i].oid == rules[j].oid ==> rules[i] == rules[j])
    && (current.Some? ==> forall i :: 0 <= i < |rules| && rules[i].oid == current.value.oid ==> rules[i] == current.value)
  }

  /** A list made of entries of a coherent list is coherent. */
  lemma CoherentSublist(rules: seq<Rule>, sub: seq<Rule>, current: Option<Rule>)
    requires Coherent(rules, current)
    requires forall i :: 0 <= i < |sub| ==> sub[i] in rules
    ensures Coherent(sub, current)
  {
    forall i, j | 0 <= i < |sub| && 0 <= j < |sub| && sub[i].oid == sub[j].oid
      ensures sub[i] == sub[j]
    {
      var a :| 0 <= a < |rules| && rules[a] == sub[i];
      var b :| 0 <= b < |rules| && rules[b] == sub[j];
    }
    if current.Some? {
      forall i | 0 <= i < |sub| && sub[i].oid == current.value.oid
        ensures sub[i] == current.value
      {
        var a :| 0 <= a < |rules| && rules[a] == sub[i];
      }
    }
  }

  /** Placing the open rule into a coherent list keeps it coherent, and
      every placed entry comes from the list or is the open rule. */
  lemma PlacePendingCoherent(rules: seq<Rule>, current: Option<Rule>, ruleIndex: Option<int>)
    requires Coherent(rules, current)
    requires ruleIndex.Some? ==> ruleIndex.value <= |rules|
    ensures var placed := PlacePending(rules, current, ruleIndex);
            && Coherent(placed, current)
            && forall i :: 0 <= i < |placed| ==> placed[i] in rules || Some(placed[i]) == current
  {
    var placed := PlacePending(rules, current, ruleIndex);
    forall i | 0 <= i < |placed| ensures placed[i] in rules || Some(placed[i]) == current {
      if i < |rules| && placed[i] == rules[i] {
        assert rules[i] in rules;
      }
    }
  }

  /** Removing `filterName` from every entry of a coherent list keeps it
      coherent with the open rule, stripped too when it is listed. */
  lemma StripCoherent(kept: seq<Rule>, current: Option<Rule>)
    requires Coherent(kept, current)
    ensures var saved := StripFilterNames(kept);
            Coherent(saved, if current.Some? && Listed(saved, current.value.oid)
                            then Some(current.value.(filterName := Absent)) else current)
  {
  }

  /** Some entry of the list is the object `oid`. */
  predicate Listed(rules: seq<Rule>, oid: nat)
  {
    exists i :: 0 <= i < |rules| && rules[i].oid == oid
  }

  /** The list after the object `updated.oid` was changed in place. */
  function Replaced(rules: seq<Rule>, updated: Rule): (r: seq<Rule>)
    ensures |r| == |rules|
    ensures forall i :: 0 <= i < |r| ==> r[i] == if rules[i].oid == updated.oid then updated else rules[i]
  {
    if |rules| == 0 then []
    else [if rules[0].oid == updated.oid then updated else rules[0]] + Replaced(rules[1..], updated)
  }

  /** One more than the largest identity in the list. */
  function OidBound(rules: seq<Rule>): (n: nat)
    ensures forall i :: 0 <= i < |rules| ==> rules[i].oid < n
  {
    if |rules| == 0 then 0
    else var m := OidBound(rules[1..]); if rules[0].oid < m then m else rules[0].oid + 1
  }

  class SchemeEditor {
    var rules: seq<Rule>
    var current: Option<Rule>
    var contentFilters: seq<ContentFilter>
    /** The identity the next created object receives. */
    var nextOid: nat

    ghost predicate Valid()
      reads this
    {
      && Coherent(rules, current)
      && (forall i :: 0 <= i < |rules| ==> rules[i].oid < nextOid)
      && (current.Some? ==> current.value.oid < nextOid)
    }

    constructor (filters: seq<ContentFilter>)
      ensures Valid()
      ensures rules == [] && current == None && contentFilters == filters
    {
      rules := [];
      current := None;
      contentFilters := filters;
      nextOid := 0;
    }

    /** `edit(scheme)`: edit a copy of the scheme's rule list, or an empty
        list when the scheme has none. */
    method Edit(schemeRules: Option<seq<Rule>>)
      requires Valid()
      requires schemeRules.Some? ==> Coherent(schemeRules.value, current)
      modifies this
      ensures Valid()
      ensures rules == (if schemeRules.Some? then schemeRules.value else [])
      ensures current == old(current) && contentFilters == old(contentFilters)
    {
      rules := if schemeRules.Some? then schemeRules.value else [];
      var bound := OidBound(rules);
      if nextOid < bound {
        nextOid := bound;
      }
    }

    /** Hands out a new object identity. */
    method FreshOid() returns (oid: nat)
      requires Valid()
      modifies this`nextOid
      ensures Valid()
      ensures oid == old(nextOid) && nextOid == oid + 1
    {
      oid := nextOid;
      nextOid := nextOid + 1;
    }

    /** A change made in place to the open rule object. */
    method UpdateCurrent(updated: Rule)
      requires Valid() && current.Some? && updated.oid == current.value.oid
      modifies this
      ensures Valid()
      ensures current == Some(updated) && rules == Replaced(old(rules), updated)
      ensures contentFilters == old(contentFilters) && nextOid == old(nextOid)
    {
      rules := Replaced(rules, updated);
      current := Some(updated);
    }

    /** `editRule(rule)`: open a listed rule and, when its filter id names
        a known content filter, record that filter's name on it. */
    method EditRule(rule: Rule)
      requires Valid() && rule in rules
      modifies this
      ensures Valid()
      ensures var found := FindFilter(old(contentFilters), rule.filter);
              current == Some(if found.Some? then rule.(filterName := Present(found.value.name)) else rule)
      ensures rules == Replaced(old(rules), current.value)
      ensures contentFilters == old(contentFilters) && nextOid == old(nextOid)
    {
      current := Some(rule);
      var found := FindFilter(contentFilters, rule.filter);
      if found.Some? {
        UpdateCurrent(rule.(filterName := Present(found.value.name)));
      } else {
        forall i | 0 <= i < |rules| ensures Replaced(rules, rule)[i] == rules[i] {}
      }
    }

    /** `addRule()`: append a default rule and open it. */
    method AddRule()
      requires Valid()
      modifies this
      ensures Valid()
      ensures rules == old(rules) + [DefaultRule(old(nextOid))]
      ensures current == Some(DefaultRule(old(nextOid)))
      ensures contentFilters == old(contentFilters) && nextOid == old(nextOid) + 1
    {
      var oid := FreshOid();
      var rule := DefaultRule(oid);
      rules := rules + [rule];
      EditRule(rule);
      forall i | 0 <= i < |rules| ensures rules[i] == (old(rules) + [rule])[i] {
        if i < |old(rules)| {
          assert old(rules)[i].oid < oid;
        }
      }
    }

    /** `removeRule(rule)` once confirmed: close the rule if it is the open
        one, then remove every rule it matches. */
    method RemoveRule(rule: Rule)
      requires Valid()
      modifies this
      ensures Valid()
      ensures rules == RemoveMatching(old(rules), rule)
      ensures current == (if old(current).Some? && old(current).value.oid == rule.oid then None else old(current))
      ensures contentFilters == old(contentFilters) && nextOid == old(nextOid)
    {
      if current.Some? && current.value.oid == rule.oid {
        current := None;
      }
      rules := RemoveMatching(rules, rule);
    }

    /** `reorder(start, end)`: drag the rule at `start` to `end`. */
    method Reorder(start: nat, end: int)
      requires Valid() && start < |rules|
      modifies this
      ensures Valid()
      ensures rules == Move(old(rules), start, end)
      ensures current == old(current) && contentFilters == old(contentFilters) && nextOid == old(nextOid)
    {
      MoveElements(rules, start, end);
      CoherentSublist(rules, Move(rules, start, end), current);
      rules := Move(rules, start, end);
    }

    /** `save()` up to the call to the persistence layer: place the open
        rule, drop unnamed rules, strip `filterName` from every kept rule (the
        open rule too, when it is kept, being the same object). */
    method Save(ruleIndex: Option<int>)
      requires Valid()
      requires ruleIndex.Some? ==> ruleIndex.value <= |rules|
      modifies this
      ensures Valid()
      ensures rules == SaveRules(old(rules), old(current), ruleIndex)
      ensures current == if old(current).Some? && Listed(rules, old(current).value.oid)
                         then Some(old(current).value.(filterName := Absent)) else old(current)
      ensures contentFilters == old(contentFilters) && nextOid == old(nextOid)
    {
      var placed := PlacePending(rules, current, ruleIndex);
      PlacePendingCoherent(rules, current, ruleIndex);
      var kept := RejectUnnamed(placed);
      CoherentSublist(placed, kept, current);
      StripCoherent(kept, current);
      rules := StripFilterNames(kept);
      if current.Some? && Listed(rules, current.value.oid) {
        current := Some(current.value.(filterName := Absent));
      }
    }

    /** `cancel()`: close the scheme and the open rule. */
    method Cancel()
      requires Valid()
      modifies this
      ensures Valid()
      ensures rules == [] && current == None
      ensures contentFilters == old(contentFilters) && nextOid == old(nextOid)
    {
      rules := [];
      current := None;
    }
  }
}
