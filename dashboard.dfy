/** The ingest dashboard: which providers a user shows, with which display
    settings (`PROVIDER_DASHBOARD_DEFAULTS`), and when a provider has gone
    quiet for longer than its idle time. */
module Dashboard {
  import opened Common
  import opened Providers
  import opened Lists

  /** The keys of `PROVIDER_DASHBOARD_DEFAULTS`, in declaration order. */
  const DefaultKeys: seq<string> := ["show_log_messages", "show_ingest_count", "show_time", "log_messages", "show_status"]

  /** `PROVIDER_DASHBOARD_DEFAULTS`. */
  const Defaults: map<string, JsValue> := map[
    "show_log_messages" := JBool(true),
    "show_ingest_count" := JBool(true),
    "show_time" := JBool(true),
    "log_messages" := JStr("error"),
    "show_status" := JBool(true)]

  const IdKey: string := "_id"
  const EnabledKey: string := "dashboard_enabled"

  /** The value `forcedExtend` writes for a default key. */
  function Setting(src: map<string, JsValue>, k: string): JsValue
    requires k in Defaults
  {
    if k in src then src[k] else Defaults[k]
  }

  /** `dest` after the first `keys` of the defaults were written. */
  function ExtendKeys(dest: map<string, JsValue>, src: map<string, JsValue>, keys: seq<string>): map<string, JsValue>
    requires forall i :: 0 <= i < |keys| ==> keys[i] in Defaults
  {
    if |keys| == 0 then dest
    else
      var k := keys[|keys| - 1];
      ExtendKeys(dest, src, keys[..|keys| - 1])[k := Setting(src, k)]
  }

  /** `forcedExtend(dest, src)` as a value. */
  function Extended(dest: map<string, JsValue>, src: map<string, JsValue>): map<string, JsValue>
  {
    ExtendKeys(dest, src, DefaultKeys)
  }

  lemma {:induction false} ExtendKeysSpec(dest: map<string, JsValue>, src: map<string, JsValue>, keys: seq<string>)
    requires forall i :: 0 <= i < |keys| ==> keys[i] in Defaults
    ensures forall k :: k in keys ==> k in ExtendKeys(dest, src, keys) && ExtendKeys(dest, src, keys)[k] == Setting(src, k)
    ensures forall k :: k !in keys ==> (k in ExtendKeys(dest, src, keys) <==> k in dest)
    ensures forall k :: k !in keys && k in dest ==> ExtendKeys(dest, src, keys)[k] == dest[k]
  {
    if |keys| > 0 {
      var init := keys[..|keys| - 1];
      ExtendKeysSpec(dest, src, init);
      assert keys == init + [keys[|keys| - 1]];
    }
  }

  /** Every default key is set, from `src` when `src` has it and from the
      defaults otherwise; every other key of `dest` is left as it was. */
  lemma ExtendedSpec(dest: map<string, JsValue>, src: map<string, JsValue>)
    ensures forall k :: k in Defaults ==> k in Extended(dest, src) && Extended(dest, src)[k] == Setting(src, k)
    ensures forall k :: k !in Defaults ==> (k in Extended(dest, src) <==> k in dest)
    ensures forall k :: k !in Defaults && k in dest ==> Extended(dest, src)[k] == dest[k]
  {
    ExtendKeysSpec(dest, src, DefaultKeys);
    assert forall k :: k in Defaults <==> k in DefaultKeys;
  }

  /** Extending twice from the same source is extending once. */
  lemma ExtendedIdempotent(dest: map<string, JsValue>, src: map<string, JsValue>)
    ensures Extended(Extended(dest, src), src) == Extended(dest, src)
  {
    ExtendedSpec(dest, src);
    ExtendedSpec(Extended(dest, src), src);
  }

  /** A provider record of the dashboard: a loosely typed JSON object. */
  class ProviderRecord {
    var props: map<string, JsValue>

    constructor (props: map<string, JsValue>)
      ensures this.props == props
    {
      this.props := props;
    }
  }

  /** `forcedExtend(dest, src)`: write every default key into `dest`. */
  method ForcedExtend(dest: ProviderRecord, src: map<string, JsValue>)
    modifies dest
    ensures dest.props == Extended(old(dest.props), src)
  {
    var i := 0;
    while i < |DefaultKeys|
      invariant 0 <= i <= |DefaultKeys|
      invariant dest.props == ExtendKeys(old(dest.props), src, DefaultKeys[..i])
    {
      var key := DefaultKeys[i];
      assert DefaultKeys[..i + 1][..i] == DefaultKeys[..i];
      if key in src {
        dest.props := dest.props[key := src[key]];
      } else {
        dest.props := dest.props[key := Defaults[key]];
      }
      i := i + 1;
    }
    assert DefaultKeys[..|DefaultKeys|] == DefaultKeys;
  }

  /** The `_id` of a record; a missing one compares equal to another
      missing one, as `undefined === undefined` does. */
  function Id(props: map<string, JsValue>): Option<JsValue>
  {
    if IdKey in props then Some(props[IdKey]) else None
  }

  /** `_.find(userProviders, item => item._id === provider._id)`: the first
      saved record with that id. */
  function FindUserProvider(users: seq<map<string, JsValue>>, id: Option<JsValue>): (r: Option<map<string, JsValue>>)
    ensures r.Some? ==> exists i :: 0 <= i < |users| && users[i] == r.value && Id(users[i]) == id
                                    && forall j :: 0 <= j < i ==> Id(users[j]) != id
    ensures r.None? ==> forall i :: 0 <= i < |users| ==> Id(users[i]) != id
  {
    if |users| == 0 then None
    else if Id(users[0]) == id then Some(users[0])
    else
      var r := FindUserProvider(users[1..], id);
      assert r.Some? ==> exists i :: 0 <= i < |users| && users[i] == r.value && Id(users[i]) == id
                                    && forall j :: 0 <= j < i ==> Id(users[j]) != id by {
        if r.Some? {
          var i :| 0 <= i < |users[1..]| && users[1..][i] == r.value && Id(users[1..][i]) == id
                   && forall j :: 0 <= j < i ==> Id(users[1..][j]) != id;
          assert forall j :: 0 <= j < i + 1 ==> Id(users[j]) != id by {
            forall j | 0 <= j < i + 1 ensures Id(users[j]) != id {
              if j > 0 {
                assert users[j] == users[1..][j - 1];
              }
            }
          }
          assert users[i + 1] == r.value;
        }
      }
      assert r.None? ==> forall i :: 0 <= i < |users| ==> Id(users[i]) != id by {
        if r.None? {
          forall i | 0 <= i < |users| ensures Id(users[i]) != id {
            if i > 0 {
              assert users[i] == users[1..][i - 1];
            }
          }
        }
      }
      r
  }

  /** One provider as `fetchDashboardProviders` leaves it: shown when the
      user's saved preferences list it, with the saved settings or the
      defaults. */
  function WithPreferences(props: map<string, JsValue>, users: seq<map<string, JsValue>>): map<string, JsValue>
  {
    var found := FindUserProvider(users, Id(props));
    Extended(props[EnabledKey := JBool(found.Some?)], if found.Some? then found.value else Defaults)
  }

  /** A provider the user has not chosen is hidden and gets the default
      settings. */
  lemma UnlistedProviderGetsDefaults(props: map<string, JsValue>, users: seq<map<string, JsValue>>)
    requires forall i :: 0 <= i < |users| ==> Id(users[i]) != Id(props)
    ensures var r := WithPreferences(props, users);
            EnabledKey in r && r[EnabledKey] == JBool(false)
            && forall k :: k in Defaults ==> k in r && r[k] == Defaults[k]
  {
    ExtendedSpec(props[EnabledKey := JBool(false)], Defaults);
  }

  /** `fetchDashboardProviders` once the providers and the preferences have
      arrived; preferences that are not a list count as none. */
  method ApplyDashboardPreferences(providers: seq<ProviderRecord>, userPrefs: Option<seq<map<string, JsValue>>>)
    requires forall i, j :: 0 <= i < j < |providers| ==> providers[i] != providers[j]
    modifies set i | 0 <= i < |providers| :: providers[i]
    ensures var users := if userPrefs.Some? then userPrefs.value else [];
            forall i :: 0 <= i < |providers| ==> providers[i].props == WithPreferences(old(providers[i].props), users)
  {
    var users := if userPrefs.Some? then userPrefs.value else [];
    var i := 0;
    while i < |providers|
      invariant 0 <= i <= |providers|
      invariant forall j :: 0 <= j < i ==> providers[j].props == WithPreferences(old(providers[j].props), users)
      invariant forall j :: i <= j < |providers| ==> providers[j].props == old(providers[j].props)
    {
      var provider := providers[i];
      var found := FindUserProvider(users, Id(provider.props));
      provider.props := provider.props[EnabledKey := JBool(found.Some?)];
      ForcedExtend(provider, if found.Some? then found.value else Defaults);
      i := i + 1;
    }
  }

  /** `_.union(['_id'], _.keys(PROVIDER_DASHBOARD_DEFAULTS))`. */
  predicate PreferenceKey(k: string)
  {
    k == IdKey || k in Defaults
  }

  predicate Enabled(props: map<string, JsValue>)
  {
    EnabledKey in props && props[EnabledKey] == JBool(true)
  }

  /** `_.pick(item, keys)`. */
  function Pick(props: map<string, JsValue>): (r: map<string, JsValue>)
    ensures forall k :: k in r <==> k in props && PreferenceKey(k)
    ensures forall k :: k in r ==> r[k] == props[k]
  {
    map k | k in props && PreferenceKey(k) :: props[k]
  }

  /** The preferences `setUserPreferences` stores: the id and settings of
      every shown provider, in order. */
  function PickPreferences(items: seq<map<string, JsValue>>): (r: seq<map<string, JsValue>>)
    ensures |r| <= |items|
    ensures |r| == |Filter(items, Enabled)|
  {
    if |items| == 0 then []
    else
      var last := items[|items| - 1];
      PickPreferences(items[..|items| - 1]) + if Enabled(last) then [Pick(last)] else []
  }

  /** `Pick` applied to each element of a list. */
  function PickEach(items: seq<map<string, JsValue>>): (r: seq<map<string, JsValue>>)
    ensures |r| == |items| && forall i :: 0 <= i < |items| ==> r[i] == Pick(items[i])
  {
    seq(|items|, i requires 0 <= i < |items| => Pick(items[i]))
  }

  /** `PickPreferences` is the picked settings of the shown providers, in
      the providers' order. */
  lemma {:induction false} PickPreferencesInOrder(items: seq<map<string, JsValue>>)
    ensures PickPreferences(items) == PickEach(Filter(items, Enabled))
  {
    if |items| > 0 {
      var init, last := items[..|items| - 1], items[|items| - 1];
      PickPreferencesInOrder(init);
      assert PickEach(Filter(init, Enabled) + [last]) == PickEach(Filter(init, Enabled)) + [Pick(last)];
    }
  }

  /** `PickPreferences` keeps exactly the shown providers: each shown one
      is stored, and everything stored comes from a shown one. */
  lemma PickPreferencesShown(items: seq<map<string, JsValue>>)
    ensures var r := PickPreferences(items);
            forall i :: 0 <= i < |items| && Enabled(items[i]) ==> Pick(items[i]) in r
    ensures var r := PickPreferences(items);
            forall x :: x in r ==> exists i :: 0 <= i < |items| && Enabled(items[i]) && x == Pick(items[i])
  {
    PickPreferencesInOrder(items);
    var f := Filter(items, Enabled);
    PickEachStored(items, f);
    PickEachFrom(items, f);
  }

  lemma PickEachStored(items: seq<map<string, JsValue>>, f: seq<map<string, JsValue>>)
    requires forall i :: 0 <= i < |items| && Enabled(items[i]) ==> items[i] in f
    ensures forall i :: 0 <= i < |items| && Enabled(items[i]) ==> Pick(items[i]) in PickEach(f)
  {
    forall i | 0 <= i < |items| && Enabled(items[i]) ensures Pick(items[i]) in PickEach(f) {
      var j :| 0 <= j < |f| && f[j] == items[i];
      assert PickEach(f)[j] == Pick(items[i]);
    }
  }

  lemma PickEachFrom(items: seq<map<string, JsValue>>, f: seq<map<string, JsValue>>)
    requires forall j :: 0 <= j < |f| ==> f[j] in items && Enabled(f[j])
    ensures forall x :: x in PickEach(f) ==> exists i :: 0 <= i < |items| && Enabled(items[i]) && x == Pick(items[i])
  {
    forall x | x in PickEach(f) ensures exists i :: 0 <= i < |items| && Enabled(items[i]) && x == Pick(items[i]) {
      var j :| 0 <= j < |f| && PickEach(f)[j] == x;
      var i :| 0 <= i < |items| && items[i] == f[j];
      assert x == Pick(items[i]);
    }
  }

  /** Picking the preference keys keeps the id. */
  lemma PickKeepsId(props: map<string, JsValue>)
    ensures Id(Pick(props)) == Id(props)
  {
    assert PreferenceKey(IdKey);
  }

  /** Fetching the saved preferences finds, for a provider whose id no
      other provider shares, the settings picked from that provider. */
  lemma FindSavedPreferences(items: seq<map<string, JsValue>>, i: int)
    requires 0 <= i < |items| && Enabled(items[i])
    requires forall j :: 0 <= j < |items| && j != i ==> Id(items[j]) != Id(items[i])
    ensures FindUserProvider(PickPreferences(items), Id(items[i])) == Some(Pick(items[i]))
  {
    var users := PickPreferences(items);
    var id := Id(items[i]);
    PickPreferencesShown(items);
    PickKeepsId(items[i]);
    var found := FindUserProvider(users, id);
    assert found.Some? by {
      assert Pick(items[i]) in users;
    }
    assert found.value in users;
    var j :| 0 <= j < |items| && Enabled(items[j]) && found.value == Pick(items[j]);
    PickKeepsId(items[j]);
    assert j == i;
  }

  /** Extending a shown provider with its own picked settings leaves it as
      it was. */
  lemma ExtendedWithOwnSettings(props: map<string, JsValue>)
    requires forall k :: k in Defaults ==> k in props
    ensures Extended(props, Pick(props)) == props
  {
    var saved := Pick(props);
    ExtendedSpec(props, saved);
    var r := Extended(props, saved);
    assert forall k :: k in r <==> k in props;
    assert forall k :: k in r ==> r[k] == props[k];
  }

  /** A shown provider whose own picked settings are what the saved
      preferences hold for its id reads back as it was. */
  lemma ShownWithOwnSettings(props: map<string, JsValue>, users: seq<map<string, JsValue>>)
    requires FindUserProvider(users, Id(props)) == Some(Pick(props))
    requires Enabled(props)
    requires forall k :: k in Defaults ==> k in props
    ensures WithPreferences(props, users) == props
  {
    assert props[EnabledKey := JBool(true)] == props;
    ExtendedWithOwnSettings(props);
  }

  /** A shown provider whose settings are all there reads back, after the
      preferences of a list of providers with distinct ids are saved and
      fetched again, exactly as it was. */
  lemma PreferencesRoundTrip(items: seq<map<string, JsValue>>, i: int)
    requires 0 <= i < |items|
    requires forall j :: 0 <= j < |items| && j != i ==> Id(items[j]) != Id(items[i])
    requires Enabled(items[i])
    requires forall k :: k in Defaults ==> k in items[i]
    ensures WithPreferences(items[i], PickPreferences(items)) == items[i]
  {
    FindSavedPreferences(items, i);
    ShownWithOwnSettings(items[i], PickPreferences(items));
  }

  // ---------------------------------------------------------------------
  // Idle providers

  /** The minute after which the provider counts as idle. */
  function IdleDeadline(lastUpdate: int, t: IdleTime): int
  {
    lastUpdate + 60 * t.hours + t.minutes
  }

  /** `isIdle()`: with `now` in minutes. */
  predicate IsIdle(p: Provider, now: int)
    ensures IsIdle(p, now) ==> p.lastItemUpdate.Some? && !p.isClosed && p.idleTime.Some?
    ensures IsIdle(p, now) ==> now > p.lastItemUpdate.value + 60 * p.idleTime.value.hours + p.idleTime.value.minutes
  {
    if p.lastItemUpdate.Some? && !p.isClosed then
      var t := if p.idleTime.Some? then p.idleTime.value else DefaultIdleTime;
      t != DefaultIdleTime && now > IdleDeadline(p.lastItemUpdate.value, t)
    else false
  }

  /** A provider that never received an item, is closed, or has no idle time
      set is never idle. */
  lemma NeverIdle(p: Provider, now: int)
    requires p.lastItemUpdate.None? || p.isClosed || p.idleTime.None? || p.idleTime == Some(DefaultIdleTime)
    ensures !IsIdle(p, now)
  {
  }

  /** Otherwise it is idle exactly once the idle time has passed since the
      last item. */
  lemma IdleExactlyAfterDeadline(p: Provider, now: int)
    requires p.lastItemUpdate.Some? && !p.isClosed && p.idleTime.Some? && p.idleTime.value != DefaultIdleTime
    ensures IsIdle(p, now) <==> now > p.lastItemUpdate.value + 60 * p.idleTime.value.hours + p.idleTime.value.minutes
  {
  }

  /** Once idle, a provider stays idle as time passes. */
  lemma IdleStaysIdle(p: Provider, now: int, later: int)
    requires IsIdle(p, now) && now <= later
    ensures IsIdle(p, later)
  {
  }
}
