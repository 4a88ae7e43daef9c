/** The ingest-provider form (`sdIngestSourcesContent`): the provider being
    edited, its field aliases (names in fetched content that differ from what
    the server expects) and the content types it ingests. */
module IngestSources {
  import opened Common
  import opened Lists
  import opened Providers

  /** One row of the alias section; `fieldName` is null until a field is
      chosen in the row's dropdown. */
  datatype FieldAlias = FieldAlias(fieldName: Field<string>, alias: string)

  /** `contentFields`: the field names the server expects. */
  const ContentFields: seq<string> := ["body_text", "guid", "published_parsed", "summary", "title", "updated_parsed"]

  // ---------------------------------------------------------------------
  // Objects as ordered dictionaries

  predicate DistinctKeys(d: seq<Pair>)
  {
    forall i, j :: 0 <= i < j < |d| ==> d[i].key != d[j].key
  }

  predicate HasKey(d: seq<Pair>, k: string)
  {
    exists i :: 0 <= i < |d| && d[i].key == k
  }

  /** Where key `k` sits in the dictionary (its last occurrence), or -1. */
  function Find(d: seq<Pair>, k: string): (r: int)
    ensures -1 <= r < |d|
    ensures r >= 0 ==> d[r].key == k && forall j :: r < j < |d| ==> d[j].key != k
    ensures r == -1 <==> !HasKey(d, k)
  {
    if |d| == 0 then -1
    else if d[|d| - 1].key == k then |d| - 1
    else Find(d[..|d| - 1], k)
  }

  /** `obj[k]`: the value stored under `k`, if any. */
  function Lookup(d: seq<Pair>, k: string): (r: Option<string>)
    ensures r.Some? <==> HasKey(d, k)
  {
    var i := Find(d, k);
    if i < 0 then None else Some(d[i].value)
  }

  /** `obj[p.key] = p.value`: an existing key keeps its place and takes the
      new value; a new key goes last. */
  function Put(d: seq<Pair>, p: Pair): (r: seq<Pair>)
    ensures DistinctKeys(d) ==> DistinctKeys(r)
    ensures forall k :: HasKey(r, k) <==> HasKey(d, k) || k == p.key
  {
    var i := Find(d, p.key);
    if i < 0 then
      assert forall k :: HasKey(d + [p], k) <==> HasKey(d, k) || k == p.key by {
        forall k ensures HasKey(d + [p], k) <==> HasKey(d, k) || k == p.key {
          if HasKey(d, k) {
            var j :| 0 <= j < |d| && d[j].key == k;
            assert (d + [p])[j].key == k;
          }
          if k == p.key {
            assert (d + [p])[|d|].key == k;
          }
          if HasKey(d + [p], k) {
            var j :| 0 <= j < |d| + 1 && (d + [p])[j].key == k;
            if j < |d| {
              assert d[j].key == k;
            }
          }
        }
      }
      d + [p]
    else
      assert forall k :: HasKey(d, k) ==> HasKey(d[i := p], k) by {
        forall k | HasKey(d, k) ensures HasKey(d[i := p], k) {
          var j :| 0 <= j < |d| && d[j].key == k;
          assert d[i := p][j].key == k;
        }
      }
      d[i := p]
  }

  /** After `Put`, the written key holds the new value and every other key
      holds what it held before. */
  lemma PutValue(d: seq<Pair>, p: Pair, k: string)
    ensures Lookup(Put(d, p), k) == if k == p.key then Some(p.value) else Lookup(d, k)
  {
    var i := Find(d, p.key);
    if i < 0 {
      assert Put(d, p) == d + [p];
      assert (d + [p])[..|d|] == d;
    } else {
      var r := d[i := p];
      assert Put(d, p) == r;
      var a, b := Find(r, k), Find(d, k);
      if b >= 0 {
        assert r[b].key == k;
      }
      if a >= 0 && b >= 0 {
        assert !(a < b) && !(b < a);
      }
    }
  }

  /** `Put` moves no key: existing keys stay where they were, other pairs
      are untouched, and a new key is appended. */
  lemma PutPlaces(d: seq<Pair>, p: Pair)
    ensures |Put(d, p)| == if HasKey(d, p.key) then |d| else |d| + 1
    ensures forall j :: 0 <= j < |d| ==> Put(d, p)[j].key == d[j].key
    ensures forall j :: 0 <= j < |d| && d[j].key != p.key ==> Put(d, p)[j] == d[j]
    ensures !HasKey(d, p.key) ==> Put(d, p)[|d|] == p
  {
  }

  /** `_.extend(obj, item)`: the item's keys are written in order. */
  function Extend(d: seq<Pair>, item: seq<Pair>): (r: seq<Pair>)
    ensures DistinctKeys(d) ==> DistinctKeys(r)
  {
    if |item| == 0 then d else Put(Extend(d, item[..|item| - 1]), item[|item| - 1])
  }

  /** After `Extend`, a key of the item holds the item's value for it and
      every other key keeps its own. */
  lemma {:induction false} ExtendValue(d: seq<Pair>, item: seq<Pair>, k: string)
    ensures Lookup(Extend(d, item), k) == if HasKey(item, k) then Lookup(item, k) else Lookup(d, k)
  {
    if |item| > 0 {
      var init, last := item[..|item| - 1], item[|item| - 1];
      ExtendValue(d, init, k);
      PutValue(Extend(d, init), last, k);
      assert Extend(d, item) == Put(Extend(d, init), last);
      if k != last.key {
        assert Lookup(item, k) == Lookup(init, k);
        assert HasKey(item, k) == HasKey(init, k);
      } else {
        assert HasKey(item, k) by {
          assert item[|item| - 1].key == k;
        }
      }
    }
  }

  /** The object `edit` builds from the stored list of alias objects. */
  function MergeAll(items: seq<seq<Pair>>): (r: seq<Pair>)
    ensures DistinctKeys(r)
  {
    if |items| == 0 then [] else Extend(MergeAll(items[..|items| - 1]), items[|items| - 1])
  }

  /** Merging the stored objects in order: a key takes its value from the
      last object that has it, and a key no object has is not there. */
  lemma {:induction false} MergeAllLastWins(items: seq<seq<Pair>>, k: string, i: int)
    requires 0 <= i < |items| && HasKey(items[i], k)
    requires forall j :: i < j < |items| ==> !HasKey(items[j], k)
    ensures Lookup(MergeAll(items), k) == Lookup(items[i], k)
  {
    var n := |items|;
    var init := items[..n - 1];
    ExtendValue(MergeAll(init), items[n - 1], k);
    if i < n - 1 {
      MergeAllLastWins(init, k, i);
    }
  }

  lemma {:induction false} MergeAllAbsent(items: seq<seq<Pair>>, k: string)
    requires forall i :: 0 <= i < |items| ==> !HasKey(items[i], k)
    ensures !HasKey(MergeAll(items), k)
  {
    if |items| > 0 {
      var n := |items|;
      var init := items[..n - 1];
      ExtendValue(MergeAll(init), items[n - 1], k);
      MergeAllAbsent(init, k);
    }
  }

  /** The alias rows for the keys of an object, in key order. */
  function AsAliases(d: seq<Pair>): (r: seq<FieldAlias>)
    ensures |r| == |d| && forall i :: 0 <= i < |d| ==> r[i] == FieldAlias(Present(d[i].key), d[i].value)
  {
    if |d| == 0 then [] else AsAliases(d[..|d| - 1]) + [FieldAlias(Present(d[|d| - 1].key), d[|d| - 1].value)]
  }

  /** A row that `save` stores: both the field and the alias are filled. */
  predicate Complete(a: FieldAlias)
  {
    Truthy(a.fieldName) && a.alias != ""
  }

  /** The `{fieldName: alias}` objects `save` stores, one per complete row. */
  function Encode(aliases: seq<FieldAlias>): (r: seq<seq<Pair>>)
    ensures |r| <= |aliases|
  {
    if |aliases| == 0 then []
    else
      var last := aliases[|aliases| - 1];
      Encode(aliases[..|aliases| - 1]) + if Complete(last) then [[Pair(last.fieldName.value, last.alias)]] else []
  }

  predicate DistinctNames(aliases: seq<FieldAlias>)
  {
    forall i, j :: 0 <= i < j < |aliases| ==> aliases[i].fieldName != aliases[j].fieldName
  }

  lemma EncodeSnoc(init: seq<FieldAlias>, last: FieldAlias)
    requires Complete(last)
    ensures Encode(init + [last]) == Encode(init) + [[Pair(last.fieldName.value, last.alias)]]
  {
    assert (init + [last])[..|init|] == init;
  }

  lemma MergeAllSnoc(items: seq<seq<Pair>>, p: Pair)
    ensures MergeAll(items + [[p]]) == Put(MergeAll(items), p)
  {
    assert (items + [[p]])[..|items|] == items;
    assert [p][..0] == [];
    assert Extend(MergeAll(items), [p]) == Put(Extend(MergeAll(items), []), p);
  }

  lemma AsAliasesSnoc(m: seq<Pair>, p: Pair)
    ensures AsAliases(m + [p]) == AsAliases(m) + [FieldAlias(Present(p.key), p.value)]
  {
    assert (m + [p])[..|m|] == m;
  }

  /** Saving complete rows with distinct field names and opening the
      provider again shows the same rows in the same order. */
  lemma {:induction false} SaveThenEditRoundTrip(aliases: seq<FieldAlias>)
    requires forall i :: 0 <= i < |aliases| ==> Complete(aliases[i])
    requires DistinctNames(aliases)
    ensures AsAliases(MergeAll(Encode(aliases))) == aliases
  {
    if |aliases| > 0 {
      var init, last := aliases[..|aliases| - 1], aliases[|aliases| - 1];
      assert aliases == init + [last];
      var p := Pair(last.fieldName.value, last.alias);
      SaveThenEditRoundTrip(init);
      var m := MergeAll(Encode(init));
      EncodeSnoc(init, last);
      MergeAllSnoc(Encode(init), p);
      assert !HasKey(m, p.key) by {
        forall i | 0 <= i < |m| ensures m[i].key != p.key {
          assert AsAliases(m)[i] == init[i] == aliases[i];
        }
      }
      assert Put(m, p) == m + [p];
      AsAliasesSnoc(m, p);
    }
  }

  // ---------------------------------------------------------------------
  // Field selection

  /** The field names chosen in some row; an empty choice does not count. */
  function SelectedNames(aliases: seq<FieldAlias>): (r: set<string>)
  {
    if |aliases| == 0 then {}
    else
      var last := aliases[|aliases| - 1];
      SelectedNames(aliases[..|aliases| - 1]) + if Truthy(last.fieldName) then {last.fieldName.value} else {}
  }

  /** Some row has chosen field `f`. */
  predicate Chosen(aliases: seq<FieldAlias>, f: string)
  {
    exists i :: 0 <= i < |aliases| && Truthy(aliases[i].fieldName) && aliases[i].fieldName.value == f
  }

  lemma {:induction false} SelectedNamesChosen(aliases: seq<FieldAlias>, f: string)
    ensures f in SelectedNames(aliases) <==> Chosen(aliases, f)
  {
    if |aliases| > 0 {
      var init, last := aliases[..|aliases| - 1], aliases[|aliases| - 1];
      SelectedNamesChosen(init, f);
      assert Chosen(aliases, f) <==> Chosen(init, f) || (Truthy(last.fieldName) && last.fieldName.value == f) by {
        if Chosen(aliases, f) {
          var i :| 0 <= i < |aliases| && Truthy(aliases[i].fieldName) && aliases[i].fieldName.value == f;
          assert i < |init| ==> aliases[i] == init[i];
        }
        if Chosen(init, f) {
          var i :| 0 <= i < |init| && Truthy(init[i].fieldName) && init[i].fieldName.value == f;
          assert aliases[i] == init[i];
        }
      }
    }
  }

  /** `fieldsNotSelected`: the content fields no row has chosen, in order. */
  function NotSelected(contentFields: seq<string>, aliases: seq<FieldAlias>): seq<string>
  {
    Filter(contentFields, (f: string) => f !in SelectedNames(aliases))
  }

  /** A field is offered exactly when it is a content field that no row has
      chosen. */
  lemma NotSelectedMembers(contentFields: seq<string>, aliases: seq<FieldAlias>, f: string)
    ensures f in NotSelected(contentFields, aliases) <==> f in contentFields && !Chosen(aliases, f)
  {
    SelectedNamesChosen(aliases, f);
    if f in contentFields && !Chosen(aliases, f) {
      var i :| 0 <= i < |contentFields| && contentFields[i] == f;
    }
    if f in NotSelected(contentFields, aliases) {
      var i :| 0 <= i < |NotSelected(contentFields, aliases)| && NotSelected(contentFields, aliases)[i] == f;
    }
  }

  /** `contentFields.filter(f => !(f in aliasObj))`. */
  function NotAliased(contentFields: seq<string>, d: seq<Pair>): seq<string>
  {
    Filter(contentFields, (f: string) => !HasKey(d, f))
  }

  /** The fields `edit` leaves unselected are the ones the alias rows it
      builds leave unselected, as long as no stored alias has an empty name. */
  lemma EditSelectionAgrees(contentFields: seq<string>, d: seq<Pair>)
    requires forall i :: 0 <= i < |d| ==> d[i].key != ""
    ensures NotAliased(contentFields, d) == NotSelected(contentFields, AsAliases(d))
  {
    forall i | 0 <= i < |contentFields|
      ensures !HasKey(d, contentFields[i]) == (contentFields[i] !in SelectedNames(AsAliases(d)))
    {
      SelectedNamesChosen(AsAliases(d), contentFields[i]);
    }
    FilterSame(contentFields, (f: string) => !HasKey(d, f), (f: string) => f !in SelectedNames(AsAliases(d)));
  }

  // ---------------------------------------------------------------------
  // Provider edits

  /** The copy `edit` makes: a provider without an update schedule or idle
      time gets the defaults, and one with them keeps its own. */
  function EditCopy(p: Provider): (r: Provider)
    ensures r.updateSchedule.Some? && r.idleTime.Some?
    ensures p.updateSchedule.None? ==> r.updateSchedule == Some(DefaultSchedule)
    ensures p.idleTime.None? ==> r.idleTime == Some(DefaultIdleTime)
    ensures p.updateSchedule.Some? ==> r.updateSchedule == p.updateSchedule
    ensures p.idleTime.Some? ==> r.idleTime == p.idleTime
    ensures r.(updateSchedule := p.updateSchedule, idleTime := p.idleTime) == p
  {
    p.(updateSchedule := Some(if p.updateSchedule.Some? then p.updateSchedule.value else DefaultSchedule),
       idleTime := Some(if p.idleTime.Some? then p.idleTime.value else DefaultIdleTime))
  }

  /** Opening a provider twice gives the same copy. */
  lemma EditCopyIdempotent(p: Provider)
    ensures EditCopy(EditCopy(p)) == EditCopy(p)
  {
  }

  /** `setRssConfig`: without authentication the credentials are cleared. */
  function RssConfig(c: ProviderConfig): (r: ProviderConfig)
    ensures r.authRequired == c.authRequired && r.fieldAliases == c.fieldAliases
    ensures c.authRequired ==> r == c
    ensures !c.authRequired ==> r.username == Null && r.password == Null
  {
    if !c.authRequired then c.(username := Null, password := Null) else c
  }

  /** What `save` sends: the complete alias rows stored in the config (when
      there is one), the error lists dropped. */
  function SavedProvider(p: Provider, aliases: seq<FieldAlias>): (r: Provider)
    ensures r.config.Some? <==> p.config.Some?
    ensures r.config.Some? ==> r.config.value == p.config.value.(fieldAliases := Some(Encode(aliases)))
    ensures r.sourceErrors == None && r.allErrors == None
    ensures r.(config := p.config, sourceErrors := p.sourceErrors, allErrors := p.allErrors) == p
  {
    p.(config := if p.config.Some? then Some(p.config.value.(fieldAliases := Some(Encode(aliases)))) else None,
       sourceErrors := None, allErrors := None)
  }

  /** `content_types.indexOf(t)`. */
  function IndexOf(s: seq<string>, t: string): (r: int)
    ensures -1 <= r < |s|
    ensures r >= 0 ==> s[r] == t && forall j :: 0 <= j < r ==> s[j] != t
    ensures r == -1 <==> t !in s
  {
    if |s| == 0 then -1
    else if s[0] == t then 0
    else var k := IndexOf(s[1..], t); if k < 0 then -1 else k + 1
  }

  /** `addOrRemoveFileType`: remove the first `t`, or add `t` at the end.
      Either way one `t` comes or goes and nothing else changes. */
  function Toggle(s: seq<string>, t: string): (r: seq<string>)
    ensures multiset(r)[t] == if t in s then multiset(s)[t] - 1 else 1
    ensures forall u :: u != t ==> multiset(r)[u] == multiset(s)[u]
  {
    var i := IndexOf(s, t);
    if i >= 0 then
      assert s == s[..i] + [t] + s[i + 1..];
      s[..i] + s[i + 1..]
    else s + [t]
  }

  /** Toggling flips whether the type is ingested when it was listed at most
      once, and leaves every other type as it was. */
  lemma ToggleFlips(s: seq<string>, t: string)
    requires multiset(s)[t] <= 1
    ensures t in Toggle(s, t) <==> t !in s
    ensures forall u :: u != t ==> (u in Toggle(s, t) <==> u in s)
  {
    var i := IndexOf(s, t);
    if i >= 0 {
      assert s == s[..i] + [t] + s[i + 1..];
      assert multiset(s) == multiset(s[..i]) + multiset([t]) + multiset(s[i + 1..]);
      assert multiset(s[..i] + s[i + 1..])[t] == 0;
      forall u | u != t ensures u in Toggle(s, t) <==> u in s {
        assert u in s <==> u in s[..i] || u in s[i + 1..];
      }
    }
  }

  /** Toggling a type that was not listed twice restores the list. */
  lemma ToggleTwice(s: seq<string>, t: string)
    requires t !in s
    ensures Toggle(Toggle(s, t), t) == s
  {
    assert IndexOf(s + [t], t) == |s| by {
      assert (s + [t])[|s|] == t;
      assert forall j :: 0 <= j < |s| ==> (s + [t])[j] != t;
    }
    assert (s + [t])[..|s|] == s;
  }

  /** `hasFileType(t)`. */
  predicate HasFileType(provider: Option<Provider>, t: string)
  {
    provider.Some? && provider.value.contentTypes.Some? && IndexOf(provider.value.contentTypes.value, t) > -1
  }

  /** `addOrRemoveFileType(t)` flips what `hasFileType(t)` answers, for a
      type listed at most once, and no other type's answer changes. */
  lemma HasFileTypeAfterToggle(p: Provider, t: string, u: string)
    requires p.contentTypes.Some? ==> multiset(p.contentTypes.value)[t] <= 1
    ensures var types := if p.contentTypes.Some? then p.contentTypes.value else [];
            var q := p.(contentTypes := Some(Toggle(types, t)));
            (HasFileType(Some(q), t) <==> !HasFileType(Some(p), t))
            && (u != t ==> (HasFileType(Some(q), u) <==> HasFileType(Some(p), u)))
  {
    var types := if p.contentTypes.Some? then p.contentTypes.value else [];
    ToggleFlips(types, t);
  }

  /** A feeding service the form can choose from: its `value`, the default
      configuration it declares (if any) and its configuration template. */
  datatype FeedingService = FeedingService(value: string, config: Option<ProviderConfig>, templateUrl: string)

  /** `{}` as a configuration: no aliases, no credentials. */
  const EmptyConfig: ProviderConfig := ProviderConfig(None, false, Absent, Absent)

  /** `getCurrentService()`: the first feeding service whose `value` is the
      provider's `feeding_service`. */
  function CurrentService(services: seq<FeedingService>, feedingService: Field<string>): (r: Option<FeedingService>)
    ensures r.Some? ==> feedingService == Present(r.value.value)
    ensures r.Some? ==> exists i :: 0 <= i < |services| && services[i] == r.value
                                     && forall j :: 0 <= j < i ==> Present(services[j].value) != feedingService
    ensures r.None? <==> forall i :: 0 <= i < |services| ==> Present(services[i].value) != feedingService
  {
    if |services| == 0 then None
    else if Present(services[0].value) == feedingService then Some(services[0])
    else
      var r := CurrentService(services[1..], feedingService);
      assert forall i :: 1 <= i < |services| ==> services[i] == services[1..][i - 1];
      r
  }

  /** The configuration `initProviderConfig` starts from: a copy of the
      service's own when it declares one, otherwise `{}`. */
  function InitialConfig(service: Option<FeedingService>): ProviderConfig
  {
    if service.Some? && service.value.config.Some? then service.value.config.value else EmptyConfig
  }

  /** `getConfigTemplateURL()`: the service's template, or "" without one. */
  function TemplateUrl(service: Option<FeedingService>): string
  {
    if service.Some? then service.value.templateUrl else ""
  }

  /** A provider whose feeding service is listed starts from that service's
      configuration and template; an unlisted one from `{}` and no template. */
  lemma InitialConfigOfService(services: seq<FeedingService>, p: Provider, i: nat)
    requires i < |services| && p.feedingService == Present(services[i].value)
    requires forall j :: 0 <= j < i ==> services[j].value != services[i].value
    ensures var s := services[i];
            InitialConfig(CurrentService(services, p.feedingService)) == (if s.config.Some? then s.config.value else EmptyConfig)
            && TemplateUrl(CurrentService(services, p.feedingService)) == s.templateUrl
  {
    var r := CurrentService(services, p.feedingService);
    var k :| 0 <= k < |services| && services[k] == r.value
             && forall j :: 0 <= j < k ==> Present(services[j].value) != p.feedingService;
    assert k == i;
  }

  /** The provider `edit` opens: the given one, or `{}`. */
  function Original(p: Option<Provider>): Provider
  {
    if p.Some? then p.value else EmptyProvider
  }

  /** The alias objects stored in a provider's configuration, if any. */
  function StoredAliases(p: Provider): seq<seq<Pair>>
  {
    if p.config.Some? && p.config.value.fieldAliases.Some? then p.config.value.fieldAliases.value else []
  }

  /** The first loop of `edit`: extend one object with every stored alias
      object in turn. */
  method MergeAliases(stored: seq<seq<Pair>>) returns (aliasObj: seq<Pair>)
    ensures aliasObj == MergeAll(stored)
  {
    aliasObj := [];
    var i := 0;
    while i < |stored|
      invariant 0 <= i <= |stored|
      invariant aliasObj == MergeAll(stored[..i])
    {
      assert MergeAll(stored[..i + 1]) == Extend(aliasObj, stored[i]) by {
        assert stored[..i + 1][..i] == stored[..i];
      }
      aliasObj := Extend(aliasObj, stored[i]);
      i := i + 1;
    }
    assert stored[..|stored|] == stored;
  }

  /** The second loop of `edit`: one row per key of the merged object. */
  method AliasRows(aliasObj: seq<Pair>) returns (rows: seq<FieldAlias>)
    ensures rows == AsAliases(aliasObj)
  {
    rows := [];
    var k := 0;
    while k < |aliasObj|
      invariant 0 <= k <= |aliasObj| && |rows| == k
      invariant forall j :: 0 <= j < k ==> rows[j] == FieldAlias(Present(aliasObj[j].key), aliasObj[j].value)
    {
      rows := rows + [FieldAlias(Present(aliasObj[k].key), aliasObj[k].value)];
      k := k + 1;
    }
  }

  class ProviderForm {
    var origProvider: Option<Provider>
    var provider: Option<Provider>
    var fieldAliases: seq<FieldAlias>
    var fieldsNotSelected: seq<string>
    const contentFields: seq<string>

    constructor ()
      ensures provider == None && origProvider == None && fieldAliases == []
      ensures contentFields == ContentFields && fieldsNotSelected == ContentFields
    {
      origProvider := None;
      provider := None;
      fieldAliases := [];
      contentFields := ContentFields;
      fieldsNotSelected := ContentFields;
    }

    /** `edit(provider)`: open a copy with defaults, and list one alias row
        per key of the merged stored alias objects. */
    method Edit(p: Option<Provider>)
      modifies this
      ensures origProvider == Some(Original(p))
      ensures provider == Some(EditCopy(Original(p)))
      ensures fieldAliases == AsAliases(MergeAll(StoredAliases(Original(p))))
      ensures fieldsNotSelected == NotAliased(contentFields, MergeAll(StoredAliases(Original(p))))
    {
      var orig := Original(p);
      var stored := StoredAliases(orig);
      var aliasObj := MergeAliases(stored);
      var rows := AliasRows(aliasObj);
      origProvider := Some(orig);
      provider := Some(EditCopy(orig));
      fieldAliases := rows;
      fieldsNotSelected := NotAliased(contentFields, aliasObj);
    }

    /** `cancel()`. */
    method Cancel()
      modifies this
      ensures origProvider == None && provider == None
      ensures fieldAliases == old(fieldAliases) && fieldsNotSelected == old(fieldsNotSelected)
    {
      origProvider := None;
      provider := None;
    }

    /** `setConfig(provider)`: the edited provider takes the other's
        configuration, nothing else. */
    method SetConfig(other: Provider)
      requires provider.Some?
      modifies this`provider
      ensures provider == Some(old(provider).value.(config := other.config))
    {
      provider := Some(provider.value.(config := other.config));
    }

    /** `initProviderConfig()` against the listed feeding services. */
    method InitProviderConfig(services: seq<FeedingService>)
      requires provider.Some?
      modifies this`provider
      ensures provider == Some(old(provider).value.(config := Some(InitialConfig(CurrentService(services, old(provider).value.feedingService)))))
    {
      var service := CurrentService(services, provider.value.feedingService);
      provider := Some(provider.value.(config := Some(InitialConfig(service))));
    }

    /** `getConfigTemplateURL()` against the listed feeding services. */
    method ConfigTemplateUrl(services: seq<FeedingService>) returns (url: string)
      requires provider.Some?
      ensures url == TemplateUrl(CurrentService(services, provider.value.feedingService))
    {
      var service := CurrentService(services, provider.value.feedingService);
      url := if service.Some? then service.value.templateUrl else "";
    }

    /** `setRssConfig(provider)` on the provider being edited. */
    method SetRssConfig(c: ProviderConfig)
      requires provider.Some?
      modifies this`provider
      ensures provider == Some(old(provider).value.(config := Some(RssConfig(c))))
    {
      provider := Some(provider.value.(config := Some(RssConfig(c))));
    }

    /** `addFieldAlias()`: an empty row at the end. */
    method AddFieldAlias()
      modifies this`fieldAliases
      ensures fieldAliases == old(fieldAliases) + [FieldAlias(Null, "")]
    {
      fieldAliases := fieldAliases + [FieldAlias(Null, "")];
    }

    /** `removeFieldAlias(itemIdx)`: the row goes, and its field, when one was
        chosen, is offered again (at the end of the list). */
    method RemoveFieldAlias(itemIdx: nat)
      requires itemIdx < |fieldAliases|
      modifies this`fieldAliases, this`fieldsNotSelected
      ensures fieldAliases == old(fieldAliases[..itemIdx] + fieldAliases[itemIdx + 1..])
      ensures var removed := old(fieldAliases[itemIdx]);
              fieldsNotSelected == old(fieldsNotSelected) + if Truthy(removed.fieldName) then [removed.fieldName.value] else []
    {
      var removed := fieldAliases[itemIdx];
      fieldAliases := fieldAliases[..itemIdx] + fieldAliases[itemIdx + 1..];
      if Truthy(removed.fieldName) {
        fieldsNotSelected := fieldsNotSelected + [removed.fieldName.value];
      }
    }

    /** `fieldSelectionChanged()`: collect the chosen fields, then offer the
        others. */
    method FieldSelectionChanged()
      modifies this`fieldsNotSelected
      ensures fieldsNotSelected == NotSelected(contentFields, fieldAliases)
    {
      var selected: set<string> := {};
      var i := 0;
      while i < |fieldAliases|
        invariant 0 <= i <= |fieldAliases|
        invariant selected == SelectedNames(fieldAliases[..i])
      {
        assert fieldAliases[..i + 1][..i] == fieldAliases[..i];
        if Truthy(fieldAliases[i].fieldName) {
          selected := selected + {fieldAliases[i].fieldName.value};
        }
        i := i + 1;
      }
      assert fieldAliases[..|fieldAliases|] == fieldAliases;
      fieldsNotSelected := Filter(contentFields, (f: string) => f !in selected);
    }

    /** `availableFieldOptions(selectedName)`: the unselected fields, then
        the row's own choice. */
    method AvailableFieldOptions(selectedName: Field<string>) returns (r: seq<string>)
      ensures |r| == |fieldsNotSelected| + if Truthy(selectedName) then 1 else 0
      ensures r[..|fieldsNotSelected|] == fieldsNotSelected
      ensures Truthy(selectedName) ==> r[|fieldsNotSelected|] == selectedName.value
      ensures forall f :: f in r <==> f in fieldsNotSelected || (Truthy(selectedName) && f == selectedName.value)
    {
      r := fieldsNotSelected;
      if Truthy(selectedName) {
        r := r + [selectedName.value];
      }
    }

    /** `save()` up to the call to the persistence layer. */
    method Save()
      requires provider.Some?
      modifies this`provider
      ensures provider == Some(SavedProvider(old(provider).value, fieldAliases))
    {
      provider := Some(SavedProvider(provider.value, fieldAliases));
    }

    /** `addOrRemoveFileType(fileType)`. */
    method AddOrRemoveFileType(fileType: string)
      requires provider.Some?
      modifies this`provider
      ensures var p := old(provider).value;
              provider == Some(p.(contentTypes := Some(Toggle(if p.contentTypes.Some? then p.contentTypes.value else [], fileType))))
    {
      var types := if provider.value.contentTypes.Some? then provider.value.contentTypes.value else [];
      var index := IndexOf(types, fileType);
      if index > -1 {
        types := types[..index] + types[index + 1..];
      } else {
        types := types + [fileType];
      }
      provider := Some(provider.value.(contentTypes := Some(types)));
    }
  }
}
