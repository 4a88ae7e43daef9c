/** The `remove` service: which ingest providers allow their ingested items
    to be removed, and whether an item can be removed. */
module RemoveIngested {
  import opened Common

  /** A provider as listed by the server: its id and `allow_remove_ingested`. */
  datatype ProviderFlag = ProviderFlag(id: string, allowRemove: Field<bool>)

  /** An ingested item, by the provider it came from. */
  datatype IngestItem = IngestItem(ingestProvider: Field<string>)

  /** `provider.allow_remove_ingested || false`. */
  function Allowed(p: ProviderFlag): bool
  {
    p.allowRemove == Present(true)
  }

  /** The `providers` map after the listed providers were recorded. */
  function Indexed(flags: map<string, bool>, list: seq<ProviderFlag>): (r: map<string, bool>)
    ensures r.Keys == flags.Keys + set i | 0 <= i < |list| :: list[i].id
  {
    if |list| == 0 then flags
    else Indexed(flags, list[..|list| - 1])[list[|list| - 1].id := Allowed(list[|list| - 1])]
  }

  /** A listed provider's flag is the one its last listing carries. */
  lemma {:induction false} IndexedLast(flags: map<string, bool>, list: seq<ProviderFlag>, i: nat)
    requires i < |list|
    requires forall j :: i < j < |list| ==> list[j].id != list[i].id
    ensures list[i].id in Indexed(flags, list) && Indexed(flags, list)[list[i].id] == Allowed(list[i])
  {
    if i < |list| - 1 {
      IndexedLast(flags, list[..|list| - 1], i);
    }
  }

  /** A provider that is not listed keeps the flag it had. */
  lemma {:induction false} IndexedUnlisted(flags: map<string, bool>, list: seq<ProviderFlag>, id: string)
    requires forall i :: 0 <= i < |list| ==> list[i].id != id
    ensures id in Indexed(flags, list) <==> id in flags
    ensures id in flags ==> Indexed(flags, list)[id] == flags[id]
  {
    if |list| > 0 {
      IndexedUnlisted(flags, list[..|list| - 1], id);
    }
  }

  /** `canRemove(item)`. */
  predicate CanRemove(providers: map<string, bool>, item: IngestItem)
    ensures CanRemove(providers, item) ==> item.ingestProvider.Present? && item.ingestProvider.value in providers
    ensures !Truthy(item.ingestProvider) ==> !CanRemove(providers, item)
  {
    Truthy(item.ingestProvider) && item.ingestProvider.value in providers && providers[item.ingestProvider.value]
  }

  /** After the providers are fetched, an item from a listed provider can be
      removed exactly when that provider's last listing allows it. */
  lemma CanRemoveAfterFetch(flags: map<string, bool>, list: seq<ProviderFlag>, item: IngestItem, i: nat)
    requires i < |list| && Truthy(item.ingestProvider) && list[i].id == item.ingestProvider.value
    requires forall j :: i < j < |list| ==> list[j].id != list[i].id
    ensures CanRemove(Indexed(flags, list), item) <==> list[i].allowRemove == Present(true)
  {
    IndexedLast(flags, list, i);
  }

  /** An unlisted provider keeps whatever the earlier fetches recorded. */
  lemma CanRemoveUnlisted(flags: map<string, bool>, list: seq<ProviderFlag>, item: IngestItem)
    requires Truthy(item.ingestProvider)
    requires forall j :: 0 <= j < |list| ==> list[j].id != item.ingestProvider.value
    ensures CanRemove(Indexed(flags, list), item) <==> CanRemove(flags, item)
  {
    IndexedUnlisted(flags, list, item.ingestProvider.value);
  }

  /** An item with no provider can never be removed. */
  lemma NoProviderNoRemove(providers: map<string, bool>, item: IngestItem)
    requires !Truthy(item.ingestProvider)
    ensures !CanRemove(providers, item)
  {
  }

  class RemoveIngestedService {
    var providers: map<string, bool>

    constructor ()
      ensures providers == map[]
    {
      providers := map[];
    }

    /** `fetchProviders()` once the provider list has arrived. */
    method FetchProviders(list: seq<ProviderFlag>)
      modifies this
      ensures providers == Indexed(old(providers), list)
    {
      var i := 0;
      while i < |list|
        invariant 0 <= i <= |list|
        invariant providers == Indexed(old(providers), list[..i])
      {
        assert list[..i + 1][..i] == list[..i];
        providers := providers[list[i].id := list[i].allowRemove == Present(true)];
        i := i + 1;
      }
      assert list[..|list|] == list;
    }

    /** `canRemove(item)` on the recorded flags. */
    method CanRemoveItem(item: IngestItem) returns (r: bool)
      ensures r == CanRemove(providers, item)
    {
      r := CanRemove(providers, item);
    }
  }
}
