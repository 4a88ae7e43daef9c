/** The Action tab of the routing-rule form (`sdIngestRoutingAction`): the
    fetch and publish actions of the open rule, the two draft actions the
    form fills in, and the one-line description of an action. */
module RoutingActionTab {
  import opened Common
  import opened Lists
  import opened RoutingRules
  import opened RoutingContent

  /** A draft as the form starts it: `{}`. */
  function EmptyDraft(oid: nat): RoutingAction
  {
    RoutingAction(oid, Absent, Absent, Absent, Absent, Absent)
  }

  /** The publish draft after a successful `addPublish`: empty target lists. */
  function EmptyPublishDraft(oid: nat): RoutingAction
  {
    RoutingAction(oid, Absent, Absent, Absent, Present([]), Present([]))
  }

  /** `removeFetch`/`removePublish`: drop the entries that ARE `a` (`===`). */
  function RemoveIdentical(actions: seq<RoutingAction>, a: RoutingAction): seq<RoutingAction>
  {
    Filter(actions, (f: RoutingAction) => f.oid != a.oid)
  }

  predicate DistinctOids(actions: seq<RoutingAction>)
  {
    forall i, j :: 0 <= i < j < |actions| ==> actions[i].oid != actions[j].oid
  }

  /** In a list of distinct objects, removing one by identity takes out
      exactly that entry, even when another entry has the same content. */
  lemma RemoveIdenticalRemovesOne(actions: seq<RoutingAction>, i: nat)
    requires i < |actions| && DistinctOids(actions)
    ensures RemoveIdentical(actions, actions[i]) == actions[..i] + actions[i + 1..]
  {
    var a := actions[i];
    var keep := (f: RoutingAction) => f.oid != a.oid;
    var before, after := actions[..i], actions[i + 1..];
    assert actions == (before + [a]) + after;
    assert Filter(before, keep) == before by {
      FilterAllKept(before, keep);
    }
    assert Filter(after, keep) == after by {
      forall j | 0 <= j < |after| ensures keep(after[j]) {
        assert after[j] == actions[i + 1 + j];
      }
      FilterAllKept(after, keep);
    }
    assert Filter(before + [a], keep) == before by {
      FilterAppend(before, [a], keep);
      assert Filter([a], keep) == [];
    }
    FilterAppend(before + [a], after, keep);
  }

  /** `scope.deskLookup[action.desk] && scope.stageLookup[action.stage]`. */
  predicate Found(a: RoutingAction, desks: map<string, string>, stages: map<string, string>)
  {
    a.desk.Present? && a.desk.value in desks && a.stage.Present? && a.stage.value in stages
  }

  /** How a target type is shown: the name, prefixed with "Not " when the
      type is NOT denied (the flag is read the other way round). */
  function TargetLabel(t: TargetType): string
  {
    (if !t.deny then "Not " else "") + t.name
  }

  function TargetLabels(ts: seq<TargetType>): (r: seq<string>)
    ensures |r| == |ts| && forall i :: 0 <= i < |ts| ==> r[i] == TargetLabel(ts[i])
  {
    if |ts| == 0 then [] else [TargetLabel(ts[0])] + TargetLabels(ts[1..])
  }

  function SubscriberNames(subs: seq<Subscriber>): (r: seq<string>)
    ensures |r| == |subs| && forall i :: 0 <= i < |subs| ==> r[i] == subs[i].name
  {
    if |subs| == 0 then [] else [subs[0].name] + SubscriberNames(subs[1..])
  }

  predicate NonEmptyList<T>(f: Field<seq<T>>)
  {
    f.Present? && |f.value| > 0
  }

  /** The macro segment: the macro's label, or " - " without a macro. */
  function MacroSegment(a: RoutingAction, macros: map<string, string>): (r: string)
    requires Truthy(a.macro) ==> a.macro.value in macros
    ensures Truthy(a.macro) ==> r == macros[a.macro.value]
    ensures !Truthy(a.macro) ==> r == " - "
  {
    if Truthy(a.macro) then macros[a.macro.value] else " - "
  }

  /** The subscriber segment: the subscribers' names joined by ",", or " - "
      when there are none. */
  function SubscriberSegment(a: RoutingAction): (r: string)
    ensures NonEmptyList(a.targetSubscribers) ==> r == Join(SubscriberNames(a.targetSubscribers.value), ",")
    ensures !NonEmptyList(a.targetSubscribers) ==> r == " - "
  {
    if NonEmptyList(a.targetSubscribers) then Join(SubscriberNames(a.targetSubscribers.value), ",") else " - "
  }

  /** The segments of an action's description: desk, stage, macro label
      (or " - "), subscriber names (or " - ") and, when there are any, the
      target types' labels joined by ",". */
  function ActionParts(a: RoutingAction, desks: map<string, string>, stages: map<string, string>,
                       macros: map<string, string>): (r: seq<string>)
    requires Found(a, desks, stages)
    requires Truthy(a.macro) ==> a.macro.value in macros
    ensures 4 <= |r| <= 5 && r[0] == desks[a.desk.value] && r[1] == stages[a.stage.value]
    ensures r[2] == MacroSegment(a, macros) && r[3] == SubscriberSegment(a)
    ensures |r| == 5 <==> NonEmptyList(a.targetTypes)
    ensures |r| == 5 ==> r[4] == Join(TargetLabels(a.targetTypes.value), ",")
  {
    [desks[a.desk.value], stages[a.stage.value], MacroSegment(a, macros), SubscriberSegment(a)]
    + (if NonEmptyList(a.targetTypes) then [Join(TargetLabels(a.targetTypes.value), ",")] else [])
  }

  /** `getActionString(action)`: the segments joined by " / ", or nothing
      when the desk or the stage is unknown. The macro label is looked up
      without a check, so a macro the lookup does not know makes the source
      throw. */
  function ActionString(a: RoutingAction, desks: map<string, string>, stages: map<string, string>,
                        macros: map<string, string>): (r: Option<string>)
    requires Found(a, desks, stages) && Truthy(a.macro) ==> a.macro.value in macros
    ensures r.Some? <==> Found(a, desks, stages)
    ensures r.Some? ==> var head := desks[a.desk.value] + " / " + stages[a.stage.value] + " / ";
                        |r.value| > |head| && r.value[..|head|] == head
  {
    if !Found(a, desks, stages) then None
    else
      var parts := ActionParts(a, desks, stages, macros);
      assert Join(parts, " / ") == parts[0] + " / " + (parts[1] + " / " + Join(parts[2..], " / "));
      Some(Join(parts, " / "))
  }

  /** An action with no macro, subscribers or target types reads
      "desk / stage /  -  /  - ". */
  lemma ActionStringPlain(a: RoutingAction, desks: map<string, string>, stages: map<string, string>,
                          macros: map<string, string>)
    requires Found(a, desks, stages) && !Truthy(a.macro)
    requires !NonEmptyList(a.targetSubscribers) && !NonEmptyList(a.targetTypes)
    ensures ActionString(a, desks, stages, macros) == Some(desks[a.desk.value] + " / " + stages[a.stage.value] + " /  -  /  - ")
  {
    var desk, stage := desks[a.desk.value], stages[a.stage.value];
    var parts := [desk, stage, " - ", " - "];
    assert ActionParts(a, desks, stages, macros) == parts;
    assert Join(parts[3..], " / ") == " - ";
    assert Join(parts[2..], " / ") == " - " + " / " + Join(parts[3..], " / ");
    assert Join(parts[1..], " / ") == stage + " / " + Join(parts[2..], " / ");
    assert Join(parts, " / ") == desk + " / " + Join(parts[1..], " / ");
    assert " /  -  /  - " == " / " + " - " + " / " + " - ";
    assert Join(parts, " / ") == desk + " / " + stage + " /  -  /  - ";
  }

  /** One target type: a denied type is shown by its name, an allowed one
      as "Not " and its name. */
  lemma ActionStringTargetType(a: RoutingAction, desks: map<string, string>, stages: map<string, string>,
                               macros: map<string, string>, t: TargetType)
    requires Found(a, desks, stages) && !Truthy(a.macro)
    requires !NonEmptyList(a.targetSubscribers) && a.targetTypes == Present([t])
    ensures ActionString(a, desks, stages, macros)
         == Some(desks[a.desk.value] + " / " + stages[a.stage.value] + " / " + " - " + " / " + " - " + " / "
                 + (if t.deny then t.name else "Not " + t.name))
  {
    var shown := Join(TargetLabels([t]), ",");
    assert shown == (if t.deny then t.name else "Not " + t.name) by {
      assert shown == TargetLabel(t);
      if t.deny {
        assert shown == "" + t.name == t.name;
      }
    }
    var desk, stage := desks[a.desk.value], stages[a.stage.value];
    assert ActionParts(a, desks, stages, macros) == [desk, stage, " - ", " - ", shown];
    JoinFive(desk, stage, " - ", " - ", shown);
  }

  /** The whole description of any action whose desk and stage are known:
      desk, stage, macro segment and subscriber segment, then the target
      types when there are any, separated by " / ". */
  lemma ActionStringText(a: RoutingAction, desks: map<string, string>, stages: map<string, string>,
                         macros: map<string, string>)
    requires Found(a, desks, stages) && (Truthy(a.macro) ==> a.macro.value in macros)
    ensures var head := desks[a.desk.value] + " / " + stages[a.stage.value] + " / " + MacroSegment(a, macros)
                        + " / " + SubscriberSegment(a);
            ActionString(a, desks, stages, macros)
            == Some(if NonEmptyList(a.targetTypes) then head + " / " + Join(TargetLabels(a.targetTypes.value), ",")
                    else head)
  {
    var parts := ActionParts(a, desks, stages, macros);
    if NonEmptyList(a.targetTypes) {
      assert parts == [parts[0], parts[1], parts[2], parts[3], parts[4]];
      JoinFive(parts[0], parts[1], parts[2], parts[3], parts[4]);
    } else {
      assert parts == [parts[0], parts[1], parts[2], parts[3]];
      JoinFour(parts[0], parts[1], parts[2], parts[3]);
    }
  }

  /** Joining four segments with " / ". */
  lemma JoinFour(a: string, b: string, c: string, d: string)
    ensures Join([a, b, c, d], " / ") == a + " / " + b + " / " + c + " / " + d
  {
    var sep := " / ";
    assert [c, d][1..] == [d];
    assert Join([c, d], sep) == c + sep + d;
    assert [b, c, d][1..] == [c, d];
    assert Join([b, c, d], sep) == b + sep + (c + sep + d);
    assert [a, b, c, d][1..] == [b, c, d];
    assert Join([a, b, c, d], sep) == a + sep + (b + sep + (c + sep + d));
  }

  /** Joining five segments with " / ". */
  lemma JoinFive(a: string, b: string, c: string, d: string, e: string)
    ensures Join([a, b, c, d, e], " / ") == a + " / " + b + " / " + c + " / " + d + " / " + e
  {
    var sep := " / ";
    assert [d, e][1..] == [e];
    assert Join([d, e], sep) == d + sep + e;
    assert [c, d, e][1..] == [d, e];
    assert Join([c, d, e], sep) == c + sep + (d + sep + e);
    assert [b, c, d, e][1..] == [c, d, e];
    assert Join([b, c, d, e], sep) == b + sep + (c + sep + (d + sep + e));
    assert [a, b, c, d, e][1..] == [b, c, d, e];
    assert Join([a, b, c, d, e], sep) == a + sep + (b + sep + (c + sep + (d + sep + e)));
  }

  class ActionsTab {
    /** The page whose open rule this tab edits (`rule: '='`). */
    const editor: SchemeEditor
    var newFetch: RoutingAction
    var newPublish: RoutingAction

    ghost predicate Valid()
      reads this, editor
    {
      editor.Valid() && editor.current.Some? && newFetch.oid < editor.nextOid && newPublish.oid < editor.nextOid
    }

    constructor (editor: SchemeEditor)
      requires editor.Valid() && editor.current.Some?
      modifies editor
      ensures Valid() && this.editor == editor
      ensures newFetch == EmptyDraft(old(editor.nextOid)) && newPublish == EmptyDraft(old(editor.nextOid) + 1)
      ensures editor.rules == old(editor.rules) && editor.current == old(editor.current)
    {
      this.editor := editor;
      var f := editor.FreshOid();
      var p := editor.FreshOid();
      newFetch := EmptyDraft(f);
      newPublish := EmptyDraft(p);
    }

    /** The form's desk, stage and macro inputs for the fetch draft. */
    method FillFetchDraft(desk: Field<string>, stage: Field<string>, macro: Field<string>)
      requires Valid()
      modifies this`newFetch
      ensures Valid()
      ensures newFetch == old(newFetch).(desk := desk, stage := stage, macro := macro)
    {
      newFetch := newFetch.(desk := desk, stage := stage, macro := macro);
    }

    /** The form's inputs for the publish draft. */
    method FillPublishDraft(desk: Field<string>, stage: Field<string>, macro: Field<string>,
                            subscribers: Field<seq<Subscriber>>, types: Field<seq<TargetType>>)
      requires Valid()
      modifies this`newPublish
      ensures Valid()
      ensures newPublish == old(newPublish).(desk := desk, stage := stage, macro := macro,
                                             targetSubscribers := subscribers, targetTypes := types)
    {
      newPublish := newPublish.(desk := desk, stage := stage, macro := macro,
                                targetSubscribers := subscribers, targetTypes := types);
    }

    /** `addFetch()`: with a desk and a stage chosen, the draft joins the
        open rule's fetch actions and a new empty draft is started;
        otherwise nothing changes. */
    method AddFetch()
      requires Valid()
      modifies this, editor
      ensures Valid()
      ensures var rule := old(editor.current).value;
              var added := Truthy(old(newFetch).desk) && Truthy(old(newFetch).stage);
              && editor.current == Some(if added then rule.(actions := rule.actions.(fetch := rule.actions.fetch + [old(newFetch)])) else rule)
              && editor.rules == Replaced(old(editor.rules), editor.current.value)
              && newFetch == (if added then EmptyDraft(old(editor.nextOid)) else old(newFetch))
              && newPublish == old(newPublish)
    {
      if Truthy(newFetch.desk) && Truthy(newFetch.stage) {
        var rule := editor.current.value;
        editor.UpdateCurrent(rule.(actions := rule.actions.(fetch := rule.actions.fetch + [newFetch])));
        var oid := editor.FreshOid();
        newFetch := EmptyDraft(oid);
      } else {
        forall i | 0 <= i < |editor.rules| ensures Replaced(editor.rules, editor.current.value)[i] == editor.rules[i] {}
      }
    }

    /** `addPublish()`: as `addFetch`, and the new draft starts with empty
        subscriber and type lists. */
    method AddPublish()
      requires Valid()
      modifies this, editor
      ensures Valid()
      ensures var rule := old(editor.current).value;
              var added := Truthy(old(newPublish).desk) && Truthy(old(newPublish).stage);
              && editor.current == Some(if added then rule.(actions := rule.actions.(publish := rule.actions.publish + [old(newPublish)])) else rule)
              && editor.rules == Replaced(old(editor.rules), editor.current.value)
              && newPublish == (if added then EmptyPublishDraft(old(editor.nextOid)) else old(newPublish))
              && newFetch == old(newFetch)
    {
      if Truthy(newPublish.desk) && Truthy(newPublish.stage) {
        var rule := editor.current.value;
        editor.UpdateCurrent(rule.(actions := rule.actions.(publish := rule.actions.publish + [newPublish])));
        var oid := editor.FreshOid();
        newPublish := EmptyPublishDraft(oid);
      } else {
        forall i | 0 <= i < |editor.rules| ensures Replaced(editor.rules, editor.current.value)[i] == editor.rules[i] {}
      }
    }

    /** `removeFetch(action)`. */
    method RemoveFetch(action: RoutingAction)
      requires Valid()
      modifies editor
      ensures Valid()
      ensures var rule := old(editor.current).value;
              && editor.current == Some(rule.(actions := rule.actions.(fetch := RemoveIdentical(rule.actions.fetch, action))))
              && editor.rules == Replaced(old(editor.rules), editor.current.value)
    {
      var rule := editor.current.value;
      editor.UpdateCurrent(rule.(actions := rule.actions.(fetch := RemoveIdentical(rule.actions.fetch, action))));
    }

    /** `removePublish(action)`. */
    method RemovePublish(action: RoutingAction)
      requires Valid()
      modifies editor
      ensures Valid()
      ensures var rule := old(editor.current).value;
              && editor.current == Some(rule.(actions := rule.actions.(publish := RemoveIdentical(rule.actions.publish, action))))
              && editor.rules == Replaced(old(editor.rules), editor.current.value)
    {
      var rule := editor.current.value;
      editor.UpdateCurrent(rule.(actions := rule.actions.(publish := RemoveIdentical(rule.actions.publish, action))));
    }
  }
}
