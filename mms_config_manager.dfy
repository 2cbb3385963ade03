/**
 * The per-subscription MMS configuration cache: a table from subscription id
 * to the filtered MMS configuration of that subscription, rebuilt wholesale
 * by a load and read by copy.
 *
 * The platform services the cache queries are parameters here: the list of
 * active subscriptions is `subs` (None when the service returns null), and the
 * carrier-config service is `provider`, the raw bundle it returns for an id.
 */
module MmsConfig {
  import opened Bundles
  import opened MmsConfigFilter

  /** A subscription id (roughly, a SIM). */
  type SubId = int

  /** The table a load builds from the active ids: each one mapped to its filtered carrier config. */
  function ConfigTable(ids: seq<SubId>, provider: SubId -> Bundle): map<SubId, Bundle>
  {
    map id | id in ids :: GetMmsConfig(provider(id))
  }

  /** The cache after a load: untouched when the active list is null or empty, else the rebuilt table. */
  function Reload(table: map<SubId, Bundle>, subs: Option<seq<SubId>>, provider: SubId -> Bundle)
    : map<SubId, Bundle>
  {
    if subs.None? || |subs.value| < 1 then table else ConfigTable(subs.value, provider)
  }

  /** Every cached entry is a filtered MMS configuration. */
  ghost predicate ValidTable(table: map<SubId, Bundle>)
  {
    forall id :: id in table ==> IsMmsConfig(table[id])
  }

  /** Putting the next id's filtered config into the scratch table extends it by that id. */
  lemma {:induction false} ConfigTableSnoc(ids: seq<SubId>, id: SubId, provider: SubId -> Bundle)
    ensures ConfigTable(ids + [id], provider) == ConfigTable(ids, provider)[id := GetMmsConfig(provider(id))]
  {
    var longer, extended := ConfigTable(ids + [id], provider), ConfigTable(ids, provider)[id := GetMmsConfig(provider(id))];
    forall x ensures x in longer <==> x in extended {
      assert x in ids + [id] <==> x in ids || x == id;
    }
  }

  /** A load with a null or empty active-subscription list leaves the cache as it was. */
  lemma ReloadAbortKeepsTable(table: map<SubId, Bundle>, subs: Option<seq<SubId>>, provider: SubId -> Bundle)
    requires subs.None? || subs.value == []
    ensures Reload(table, subs, provider) == table
  {
  }

  /**
   * After a successful load the cached ids are exactly the active ones (ids no
   * longer listed are gone) and each maps to its filtered carrier config.
   */
  lemma ReloadKeysAreActiveIds(table: map<SubId, Bundle>, subs: Option<seq<SubId>>, provider: SubId -> Bundle)
    requires subs.Some? && subs.value != []
    ensures forall id :: id in Reload(table, subs, provider) <==> id in subs.value
    ensures forall id :: id in subs.value ==> Reload(table, subs, provider)[id] == GetMmsConfig(provider(id))
  {
  }

  /** A successful load leaves nothing of the previous table: the result never mixes two loads. */
  lemma ReloadReplacesWholeTable(
    before: map<SubId, Bundle>, other: map<SubId, Bundle>, subs: Option<seq<SubId>>, provider: SubId -> Bundle)
    requires subs.Some? && subs.value != []
    ensures Reload(before, subs, provider) == Reload(other, subs, provider)
  {
  }

  /** Two loads in a row against the same platform state leave the same table as one. */
  lemma ReloadIdempotent(table: map<SubId, Bundle>, subs: Option<seq<SubId>>, provider: SubId -> Bundle)
    ensures Reload(Reload(table, subs, provider), subs, provider) == Reload(table, subs, provider)
  {
  }

  /** The rebuilt table depends on which ids are active, not on their order or repetitions. */
  lemma ConfigTableDependsOnIdSet(ids: seq<SubId>, others: seq<SubId>, provider: SubId -> Bundle)
    requires forall id :: id in ids <==> id in others
    ensures ConfigTable(ids, provider) == ConfigTable(others, provider)
  {
    var a, b := ConfigTable(ids, provider), ConfigTable(others, provider);
    forall id ensures id in a <==> id in b {
      assert id in a <==> id in ids;
      assert id in b <==> id in others;
    }
  }

  /** A load keeps every cached entry a filtered MMS configuration. */
  lemma ReloadKeepsValid(table: map<SubId, Bundle>, subs: Option<seq<SubId>>, provider: SubId -> Bundle)
    requires ValidTable(table)
    ensures ValidTable(Reload(table, subs, provider))
  {
    forall id | id in Reload(table, subs, provider) ensures IsMmsConfig(Reload(table, subs, provider)[id]) {
      if subs.Some? && |subs.value| >= 1 {
        FilterIsMmsConfig(provider(id));
      }
    }
  }

  /** The cache of MMS configurations, one per subscription id. */
  class MmsConfigManager {
    var subIdConfigMap: map<SubId, Bundle>

    ghost predicate Valid()
      reads this
    {
      ValidTable(subIdConfigMap)
    }

    constructor()
      ensures Valid() && subIdConfigMap == map[]
    {
      subIdConfigMap := map[];
    }

    /**
     * getMmsConfigBySubId: a copy of the configuration cached for `subId`, or
     * None (null) when there is none. Bundles are values, so the copy is the
     * value itself and nothing the caller does to it reaches the cache; the
     * cache is only read.
     */
    method GetMmsConfigBySubId(subId: SubId) returns (config: Option<Bundle>)
      requires Valid()
      ensures config.None? <==> subId !in subIdConfigMap
      ensures config.Some? ==> config.value == subIdConfigMap[subId] && IsMmsConfig(config.value)
    {
      if subId in subIdConfigMap {
        config := Some(subIdConfigMap[subId]);
      } else {
        config := None;
      }
    }

    /**
     * load: when the active-subscription list is null or empty, return with
     * the cache untouched. Otherwise fill a scratch table with the filtered
     * carrier config of every active id, and only then replace the cache's
     * contents by it (clear, then putAll).
     */
    method Load(subs: Option<seq<SubId>>, provider: SubId -> Bundle)
      requires Valid()
      modifies this
      ensures Valid()
      ensures subIdConfigMap == Reload(old(subIdConfigMap), subs, provider)
      ensures subs.None? || |subs.value| < 1 ==> subIdConfigMap == old(subIdConfigMap)
      ensures subs.Some? && |subs.value| >= 1 ==>
        (forall id :: id in subIdConfigMap <==> id in subs.value) &&
        (forall id :: id in subs.value ==> subIdConfigMap[id] == GetMmsConfig(provider(id)))
    {
      if subs.None? || |subs.value| < 1 {
        return;
      }
      var ids := subs.value;
      var newConfigMap: map<SubId, Bundle> := map[];
      for i := 0 to |ids|
        invariant newConfigMap == ConfigTable(ids[..i], provider)
        invariant subIdConfigMap == old(subIdConfigMap)
      {
        var subId := ids[i];
        var config := provider(subId);
        ConfigTableSnoc(ids[..i], subId, provider);
        assert ids[..i + 1] == ids[..i] + [subId];
        newConfigMap := newConfigMap[subId := GetMmsConfig(config)];
      }
      assert ids[..|ids|] == ids;
      subIdConfigMap := map[];
      subIdConfigMap := subIdConfigMap + newConfigMap;
      ReloadKeepsValid(old(subIdConfigMap), subs, provider);
    }
  }
}
