/** The Filter tab of the routing-rule form (`sdIngestRoutingFilter`): it
    shows and changes the content filter of the open rule, and searches the
    content filters by name. `RegExp.escape` makes the search term literal. */
module RoutingFilter {
  import opened Common
  import opened Lists
  import opened RoutingRules
  import opened RoutingContent

  /** The characters `RegExp.escape` prefixes with a backslash. */
  predicate Special(c: char)
  {
    c in {'-', '/', '\\', '^', '$', '*', '+', '?', '.', '(', ')', '|', '[', ']', '{', '}'}
  }

  /** `RegExp.escape(s)`: every special character gets a backslash in front. */
  function Escape(s: string): (r: string)
    ensures |r| == |s| + |Filter(s, (c: char) => Special(c))|
    ensures (forall i :: 0 <= i < |s| ==> !Special(s[i])) ==> r == s
  {
    if |s| == 0 then ""
    else
      FilterAppend([s[0]], s[1..], (c: char) => Special(c));
      assert [s[0]] + s[1..] == s;
      assert [s[0]][..0] == [];
      (if Special(s[0]) then ['\\', s[0]] else [s[0]]) + Escape(s[1..])
  }

  /** What a regular expression reads an escaped pattern as: a backslash
      followed by a special character stands for that character. */
  function Unescape(t: string): string
  {
    if |t| == 0 then ""
    else if |t| >= 2 && t[0] == '\\' && Special(t[1]) then [t[1]] + Unescape(t[2..])
    else [t[0]] + Unescape(t[1..])
  }

  /** The escaped pattern stands for exactly the original text. */
  lemma {:induction false} EscapeRoundTrip(s: string)
    ensures Unescape(Escape(s)) == s
  {
    if |s| > 0 {
      var t := Escape(s);
      if Special(s[0]) {
        assert t == ['\\', s[0]] + Escape(s[1..]);
        assert t[2..] == Escape(s[1..]);
      } else {
        assert t == [s[0]] + Escape(s[1..]);
        assert t[1..] == Escape(s[1..]);
      }
      EscapeRoundTrip(s[1..]);
    }
  }

  /** ASCII lower case; other characters are left as they are. */
  function Lower(c: char): char
  {
    if 'A' <= c <= 'Z' then (c as int + 32) as char else c
  }

  function LowerStr(s: string): (r: string)
    ensures |r| == |s| && forall i :: 0 <= i < |s| ==> r[i] == Lower(s[i])
  {
    if |s| == 0 then "" else [Lower(s[0])] + LowerStr(s[1..])
  }

  /** `pat` occurs in `text` starting at position `i`. */
  predicate OccursAt(text: string, pat: string, i: int)
  {
    0 <= i <= |text| - |pat| && text[i..i + |pat|] == pat
  }

  predicate Occurs(text: string, pat: string)
  {
    exists i :: 0 <= i <= |text| - |pat| && OccursAt(text, pat, i)
  }

  /** `new RegExp(RegExp.escape(term), 'i').test(name)`: the term occurs in
      the name, ignoring ASCII case. */
  predicate ContainsIgnoringCase(name: string, term: string)
  {
    Occurs(LowerStr(name), LowerStr(term))
  }

  /** `searchFilters(term)`: the filters whose names contain the term. */
  function MatchingFilters(filters: seq<ContentFilter>, term: string): (r: seq<ContentFilter>)
    ensures forall f :: f in r ==> f in filters && ContainsIgnoringCase(f.name, term)
    ensures forall i :: 0 <= i < |filters| && ContainsIgnoringCase(filters[i].name, term) ==> filters[i] in r
  {
    Filter(filters, (f: ContentFilter) => ContainsIgnoringCase(f.name, term))
  }

  /** An empty search term lists every filter, in order. */
  lemma EmptySearchMatchesAll(filters: seq<ContentFilter>)
    ensures MatchingFilters(filters, "") == filters
  {
    forall i | 0 <= i < |filters| ensures ContainsIgnoringCase(filters[i].name, "") {
      assert OccursAt(LowerStr(filters[i].name), LowerStr(""), 0);
    }
    FilterAllKept(filters, (f: ContentFilter) => ContainsIgnoringCase(f.name, ""));
  }

  /** The search finds the same filters whatever the case of the term. */
  lemma SearchIgnoresCase(filters: seq<ContentFilter>, term: string)
    ensures MatchingFilters(filters, LowerStr(term)) == MatchingFilters(filters, term)
  {
    assert LowerStr(LowerStr(term)) == LowerStr(term);
    FilterSame(filters, (f: ContentFilter) => ContainsIgnoringCase(f.name, LowerStr(term)),
                        (f: ContentFilter) => ContainsIgnoringCase(f.name, term));
  }

  /** A filter whose name contains the term exactly as typed is found. */
  lemma SearchFindsLiteralMatch(filters: seq<ContentFilter>, term: string, k: nat, i: nat)
    requires k < |filters| && OccursAt(filters[k].name, term, i)
    ensures filters[k] in MatchingFilters(filters, term)
  {
    var name := filters[k].name;
    assert LowerStr(name)[i..i + |term|] == LowerStr(term);
    assert OccursAt(LowerStr(name), LowerStr(term), i);
  }

  /** Once a filter is selected, reopening the rule finds that filter again
      as long as no earlier filter has the same id. */
  lemma {:induction false} SelectedFilterFoundAgain(filters: seq<ContentFilter>, k: nat)
    requires k < |filters|
    requires forall j :: 0 <= j < k ==> filters[j].id != filters[k].id
    ensures FindFilter(filters, Present(filters[k].id)) == Some(filters[k])
  {
    if k > 0 {
      SelectedFilterFoundAgain(filters[1..], k - 1);
    }
  }

  class FilterTab {
    /** The page whose open rule this tab edits (`rule: '='`). */
    const editor: SchemeEditor
    var filters: seq<ContentFilter>
    var selectedFilter: Option<ContentFilter>
    var filterSearchTerm: Option<string>
    var matchingFilters: seq<ContentFilter>

    constructor (editor: SchemeEditor, filters: seq<ContentFilter>)
      requires editor.Valid() && editor.current.Some?
      ensures this.editor == editor && this.filters == filters
      ensures matchingFilters == [] && filterSearchTerm == None
      ensures selectedFilter == FindFilter(filters, editor.current.value.filter)
    {
      this.editor := editor;
      this.filters := filters;
      matchingFilters := [];
      filterSearchTerm := None;
      selectedFilter := FindFilter(filters, editor.current.value.filter);
    }

    /** `init()`, also run whenever the bound rule changes. */
    method Init()
      requires editor.Valid() && editor.current.Some?
      modifies this
      ensures matchingFilters == [] && filterSearchTerm == None && filters == old(filters)
      ensures selectedFilter == FindFilter(filters, editor.current.value.filter)
    {
      matchingFilters := [];
      filterSearchTerm := None;
      selectedFilter := FindFilter(filters, editor.current.value.filter);
    }

    /** `searchFilters(term)`. */
    method SearchFilters(term: string)
      modifies this`matchingFilters
      ensures matchingFilters == MatchingFilters(filters, term)
    {
      matchingFilters := MatchingFilters(filters, term);
    }

    /** `selectFilter(filter)`: the open rule now uses this filter. */
    method SelectFilter(f: ContentFilter)
      requires editor.Valid() && editor.current.Some?
      modifies this, editor
      ensures editor.Valid()
      ensures selectedFilter == Some(f) && filterSearchTerm == None
      ensures editor.current == Some(old(editor.current).value.(filter := Present(f.id), filterName := Present(f.name)))
      ensures editor.rules == Replaced(old(editor.rules), editor.current.value)
      ensures filters == old(filters) && matchingFilters == old(matchingFilters)
      ensures editor.contentFilters == old(editor.contentFilters) && editor.nextOid == old(editor.nextOid)
    {
      selectedFilter := Some(f);
      editor.UpdateCurrent(editor.current.value.(filter := Present(f.id), filterName := Present(f.name)));
      filterSearchTerm := None;
    }

    /** `clearSelectedFilter()`: the open rule has no filter any more. */
    method ClearSelectedFilter()
      requires editor.Valid() && editor.current.Some?
      modifies this, editor
      ensures editor.Valid()
      ensures selectedFilter == None
      ensures editor.current == Some(old(editor.current).value.(filter := Null, filterName := Null))
      ensures editor.rules == Replaced(old(editor.rules), editor.current.value)
      ensures filters == old(filters) && matchingFilters == old(matchingFilters) && filterSearchTerm == old(filterSearchTerm)
      ensures editor.contentFilters == old(editor.contentFilters) && editor.nextOid == old(editor.nextOid)
    {
      selectedFilter := None;
      editor.UpdateCurrent(editor.current.value.(filter := Null, filterName := Null));
    }
  }
}
