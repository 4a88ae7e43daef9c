/** Subject codes (`subjectService`): each subject may name a parent by its
    qcode, and a subject's path is the names of its ancestors, root first,
    each followed by " / ". */
module Subjects {
  import opened Common

  datatype Subject = Subject(qcode: string, name: string, parent: Field<string>)

  /** What `process` lists for one subject. */
  datatype Entry = Entry(qcode: string, name: string, path: string)

  /** `getPath(item)`. A parent missing from the lookup makes the source
      throw, and so does a parent chain that comes back on itself (the
      recursion exhausts the stack); both give `None`. `visited` holds the
      parent qcodes already followed. A subject with a parent has a path
      ending in the separator; one without has the empty path. */
  function Path(lookup: map<string, Subject>, item: Subject, visited: set<string>): (r: Option<string>)
    ensures !Truthy(item.parent) ==> r == Some("")
    ensures Truthy(item.parent) && item.parent.value !in lookup ==> r.None?
    ensures Truthy(item.parent) && r.Some? ==> |r.value| >= 3 && r.value[|r.value| - 3..] == " / "
    decreases lookup.Keys - visited
  {
    if !Truthy(item.parent) then Some("")
    else
      var q := item.parent.value;
      if q !in lookup || q in visited then None
      else
        match Path(lookup, lookup[q], visited + {q})
        case None => None
        case Some(above) => Some(above + lookup[q].name + " / ")
  }

  /** Following the parents of `item` goes through the subjects with
      qcodes `codes`, in order, and ends at a subject without a parent. */
  predicate Ancestors(lookup: map<string, Subject>, item: Subject, codes: seq<string>)
    decreases |codes|
  {
    if |codes| == 0 then !Truthy(item.parent)
    else item.parent == Present(codes[0]) && codes[0] != "" && codes[0] in lookup
         && Ancestors(lookup, lookup[codes[0]], codes[1..])
  }

  /** The names of the subjects `codes`, root first, each followed by " / ". */
  function ChainPath(lookup: map<string, Subject>, codes: seq<string>): string
  {
    if |codes| == 0 then ""
    else ChainPath(lookup, codes[1..]) + (if codes[0] in lookup then lookup[codes[0]].name else "") + " / "
  }

  /** Along an ancestor chain that never repeats a qcode, `getPath` gives the
      names of the ancestors, root first. */
  lemma {:induction false} PathFollowsAncestors(lookup: map<string, Subject>, item: Subject, codes: seq<string>, visited: set<string>)
    requires Ancestors(lookup, item, codes)
    requires forall i, j :: 0 <= i < j < |codes| ==> codes[i] != codes[j]
    requires forall i :: 0 <= i < |codes| ==> codes[i] !in visited
    ensures Path(lookup, item, visited) == Some(ChainPath(lookup, codes))
    decreases |codes|
  {
    if |codes| > 0 {
      var q := codes[0];
      forall i | 0 <= i < |codes[1..]| ensures codes[1..][i] !in visited + {q} {
        assert codes[1..][i] == codes[i + 1];
      }
      PathFollowsAncestors(lookup, lookup[q], codes[1..], visited + {q});
    }
  }

  /** Conversely, every path `getPath` gives is the names along an ancestor
      chain that never revisits a qcode. */
  lemma {:induction false} PathHasAncestors(lookup: map<string, Subject>, item: Subject, visited: set<string>)
    requires Path(lookup, item, visited).Some?
    ensures exists codes :: && Ancestors(lookup, item, codes)
                            && (forall i :: 0 <= i < |codes| ==> codes[i] !in visited)
                            && Path(lookup, item, visited) == Some(ChainPath(lookup, codes))
    decreases lookup.Keys - visited
  {
    if !Truthy(item.parent) {
      var codes: seq<string> := [];
      assert Ancestors(lookup, item, codes);
    } else {
      var q := item.parent.value;
      var rest := visited + {q};
      PathHasAncestors(lookup, lookup[q], rest);
      var tail :| && Ancestors(lookup, lookup[q], tail)
                  && (forall i :: 0 <= i < |tail| ==> tail[i] !in rest)
                  && Path(lookup, lookup[q], rest) == Some(ChainPath(lookup, tail));
      AncestorsCons(lookup, item, tail);
      PathStep(lookup, item, visited);
    }
  }

  /** One more parent in front of an ancestor chain. */
  lemma AncestorsCons(lookup: map<string, Subject>, item: Subject, tail: seq<string>)
    requires Truthy(item.parent) && item.parent.value in lookup
    requires Ancestors(lookup, lookup[item.parent.value], tail)
    ensures var q := item.parent.value;
            && Ancestors(lookup, item, [q] + tail)
            && ChainPath(lookup, [q] + tail) == ChainPath(lookup, tail) + lookup[q].name + " / "
            && forall i :: 0 < i < |tail| + 1 ==> ([q] + tail)[i] == tail[i - 1]
  {
    assert ([item.parent.value] + tail)[1..] == tail;
  }

  /** `getPath` of a subject is the path of its parent, then the parent's
      name and the separator. */
  lemma PathStep(lookup: map<string, Subject>, item: Subject, visited: set<string>)
    requires Truthy(item.parent) && item.parent.value in lookup && item.parent.value !in visited
    ensures var q := item.parent.value;
            Path(lookup, item, visited)
            == match Path(lookup, lookup[q], visited + {q})
               case None => None
               case Some(above) => Some(above + lookup[q].name + " / ")
  {
  }

  /** A subject that is its own parent has no path. */
  lemma SelfParentHasNoPath(lookup: map<string, Subject>, q: string)
    requires q in lookup && lookup[q].parent == Present(q) && q != ""
    ensures Path(lookup, lookup[q], {}) == None
  {
    assert Path(lookup, lookup[q], {q}) == None;
  }

  /** `qcodeLookup` after the first loop of `process`: a later subject with
      the same qcode wins. */
  function Index(lookup: map<string, Subject>, items: seq<Subject>): map<string, Subject>
  {
    if |items| == 0 then lookup
    else Index(lookup, items[..|items| - 1])[items[|items| - 1].qcode := items[|items| - 1]]
  }

  /** Every listed qcode maps to the last subject listed with it. */
  lemma {:induction false} IndexLast(lookup: map<string, Subject>, items: seq<Subject>, i: nat)
    requires i < |items|
    requires forall j :: i < j < |items| ==> items[j].qcode != items[i].qcode
    ensures items[i].qcode in Index(lookup, items) && Index(lookup, items)[items[i].qcode] == items[i]
  {
    if i < |items| - 1 {
      IndexLast(lookup, items[..|items| - 1], i);
    }
  }

  /** The entries the second loop of `process` pushes: one per subject, up
      to the first subject whose path fails. */
  function Entries(lookup: map<string, Subject>, items: seq<Subject>): seq<Entry>
  {
    if |items| == 0 then []
    else match Path(lookup, items[0], {})
      case None => []
      case Some(p) => [Entry(items[0].qcode, items[0].name, p)] + Entries(lookup, items[1..])
  }

  predicate AllResolve(lookup: map<string, Subject>, items: seq<Subject>)
  {
    forall i :: 0 <= i < |items| ==> Path(lookup, items[i], {}).Some?
  }

  lemma {:induction false} EntriesAppend(lookup: map<string, Subject>, a: seq<Subject>, b: seq<Subject>)
    requires AllResolve(lookup, a)
    ensures Entries(lookup, a + b) == Entries(lookup, a) + Entries(lookup, b)
  {
    if |a| > 0 {
      assert (a + b)[0] == a[0];
      assert (a + b)[1..] == a[1..] + b;
      assert forall i :: 0 <= i < |a[1..]| ==> a[1..][i] == a[i + 1];
      EntriesAppend(lookup, a[1..], b);
    } else {
      assert a + b == b;
    }
  }

  /** When every path resolves there is one entry per subject, in order. */
  lemma {:induction false} EntriesComplete(lookup: map<string, Subject>, items: seq<Subject>)
    requires AllResolve(lookup, items)
    ensures |Entries(lookup, items)| == |items|
    ensures forall i :: 0 <= i < |items| ==>
              Entries(lookup, items)[i] == Entry(items[i].qcode, items[i].name, Path(lookup, items[i], {}).value)
  {
    if |items| > 0 {
      EntriesComplete(lookup, items[1..]);
    }
  }

  /** The entries grow by one subject whose path resolves. */
  lemma EntriesStep(lookup: map<string, Subject>, items: seq<Subject>, k: nat)
    requires k < |items| && Path(lookup, items[k], {}).Some?
    requires forall j :: 0 <= j < k ==> Path(lookup, items[j], {}).Some?
    ensures Entries(lookup, items[..k + 1])
         == Entries(lookup, items[..k]) + [Entry(items[k].qcode, items[k].name, Path(lookup, items[k], {}).value)]
  {
    assert AllResolve(lookup, items[..k]) by {
      forall j | 0 <= j < |items[..k]| ensures Path(lookup, items[..k][j], {}).Some? {
        assert items[..k][j] == items[j];
      }
    }
    assert items[..k + 1] == items[..k] + [items[k]];
    EntriesAppend(lookup, items[..k], [items[k]]);
  }

  /** The entries stop at the first subject whose path fails. */
  lemma EntriesStop(lookup: map<string, Subject>, items: seq<Subject>, k: nat)
    requires k < |items| && Path(lookup, items[k], {}).None?
    requires forall j :: 0 <= j < k ==> Path(lookup, items[j], {}).Some?
    ensures Entries(lookup, items) == Entries(lookup, items[..k])
    ensures !AllResolve(lookup, items)
  {
    assert AllResolve(lookup, items[..k]) by {
      forall j | 0 <= j < |items[..k]| ensures Path(lookup, items[..k][j], {}).Some? {
        assert items[..k][j] == items[j];
      }
    }
    EntriesAppend(lookup, items[..k], items[k..]);
    assert items[..k] + items[k..] == items;
    assert items[k..][0] == items[k];
  }

  class SubjectService {
    var qcodeLookup: map<string, Subject>
    var subjects: seq<Entry>

    constructor ()
      ensures qcodeLookup == map[] && subjects == []
    {
      qcodeLookup := map[];
      subjects := [];
    }

    /** `process()` over the fetched subjects. `ok` is false when a path
        fails, where the source throws after pushing the entries before it. */
    method Process(items: seq<Subject>) returns (ok: bool, result: seq<Entry>)
      modifies this
      ensures qcodeLookup == Index(old(qcodeLookup), items)
      ensures subjects == old(subjects) + Entries(qcodeLookup, items)
      ensures ok <==> AllResolve(qcodeLookup, items)
      ensures ok ==> result == subjects
    {
      var i := 0;
      while i < |items|
        invariant 0 <= i <= |items|
        invariant qcodeLookup == Index(old(qcodeLookup), items[..i])
        invariant subjects == old(subjects)
      {
        assert items[..i + 1][..i] == items[..i];
        qcodeLookup := qcodeLookup[items[i].qcode := items[i]];
        i := i + 1;
      }
      assert items[..|items|] == items;
      var k := 0;
      while k < |items|
        invariant 0 <= k <= |items|
        invariant qcodeLookup == Index(old(qcodeLookup), items)
        invariant forall j :: 0 <= j < k ==> Path(qcodeLookup, items[j], {}).Some?
        invariant subjects == old(subjects) + Entries(qcodeLookup, items[..k])
      {
        var path := Path(qcodeLookup, items[k], {});
        if path.None? {
          EntriesStop(qcodeLookup, items, k);
          ok, result := false, subjects;
          return;
        }
        EntriesStep(qcodeLookup, items, k);
        subjects := subjects + [Entry(items[k].qcode, items[k].name, path.value)];
        k := k + 1;
      }
      assert items[..|items|] == items;
      ok, result := true, subjects;
    }
  }
}
