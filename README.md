# MMS configuration cache

A Dafny model of the per-subscription MMS configuration cache of the Android
MMS service (`MmsConfigManager`). The cache maps each subscription id to a
bundle that holds only the MMS settings of that subscription's carrier
configuration:

- **the filter** (`getMmsConfig`) projects a raw carrier-config bundle onto a
  fixed set of 32 MMS keys (15 boolean, 11 integer, 6 string), reading each key
  with the getter of its type and dropping every other key;
- **the load** (`load`) gives up when the list of active subscriptions is null
  or empty, and otherwise builds a scratch table with one filtered bundle per
  active id, then replaces the cache's contents with it (`clear`, `putAll`);
- **the lookup** (`getMmsConfigBySubId`) returns a copy of the cached bundle,
  or null when the id is not cached.

Files:

- `bundles.dfy` (module `Bundles`): a bundle as `map<string, Value>`, and the
  typed getters `getBoolean`, `getInt`, `getString`, with the platform's
  defaults (false, 0, null) for a missing key or a value of another type.
- `mms_config_filter.dfy` (module `MmsConfigFilter`): the 32 key names, the
  filter, and what it guarantees. The keys are the string values of the
  `SmsManager.MMS_CONFIG_*` constants. The filter is a sequence of puts into a
  fresh bundle, in the source's order.
- `mms_config_manager.dfy` (module `MmsConfig`): the class
  `MmsConfigManager`, which holds the field `subIdConfigMap`, and its methods
  `Load` and `GetMmsConfigBySubId`. The module also has the functions
  `ConfigTable` and `Reload`, which specify a load, with lemmas about them.

The platform services are parameters of `Load`. `subs` is the active
subscription list: `None` when the service returns null, otherwise the ids of
the listed subscriptions. `provider` is the carrier-config service: the raw
bundle it returns for a subscription id.

## Model

| member | source | states |
|---|---|---|
| `MmsConfigFilter.GetMmsConfig` | src/com/android/mms/service/MmsConfigManager.java:154-221 | the result holds exactly the 32 MMS keys; each boolean key holds `getBoolean` of the input, each integer key `getInt`, each string key `getString` |
| `MmsConfigFilter.PutAllEffect` | src/com/android/mms/service/MmsConfigManager.java:155-220 | a run of puts adds exactly the put keys; each one holds the value read for it, and every other key keeps its earlier value |
| `MmsConfigFilter.KeyGroups` | src/com/android/mms/service/MmsConfigManager.java:156-219 | the key set has 32 keys (15 boolean, 11 integer, 6 string); no key belongs to two types; the filter puts every one of them |
| `MmsConfigFilter.PutOrderCoversKeys` | src/com/android/mms/service/MmsConfigManager.java:156-219 | the keys the filter puts are exactly the boolean, integer and string keys |
| `MmsConfigFilter.KeysDistinct` | src/com/android/mms/service/MmsConfigManager.java:156-219 | the 32 key names are pairwise different, so no put overwrites another |
| `MmsConfigFilter.FilterIsMmsConfig` | src/com/android/mms/service/MmsConfigManager.java:150-151 | every result is a well-formed MMS configuration: all 32 keys, each holding a value of its type |
| `MmsConfigFilter.FilterCopiesOrDefaults` | src/com/android/mms/service/MmsConfigManager.java:154-221 | an MMS key that holds a value of its type is copied; a missing key, or one of another type, becomes false, 0 or null |
| `MmsConfigFilter.FilterFixesMmsConfig` | src/com/android/mms/service/MmsConfigManager.java:154-221 | filtering a well-formed MMS configuration returns it unchanged |
| `MmsConfigFilter.FilterIdempotent` | src/com/android/mms/service/MmsConfigManager.java:154-221 | filtering twice gives the same result as filtering once |
| `MmsConfigFilter.FilterDependsOnlyOnMmsKeys` | src/com/android/mms/service/MmsConfigManager.java:150-151 | two inputs that agree on the MMS keys give the same result |
| `MmsConfigFilter.FilterIgnoresOtherKey` | src/com/android/mms/service/MmsConfigManager.java:146-151 | adding or changing a non-MMS key in the input does not change the result |
| `MmsConfigFilter.FilterOfRestriction` | src/com/android/mms/service/MmsConfigManager.java:150-151 | filtering the input gives the same result as filtering its restriction to the MMS keys |
| `MmsConfig.ConfigTableSnoc` | src/com/android/mms/service/MmsConfigManager.java:240-244 | one more loop step (put id ↦ filtered provider bundle) extends the scratch table by exactly that id |
| `MmsConfig.ConfigTableDependsOnIdSet` | src/com/android/mms/service/MmsConfigManager.java:240-244 | the rebuilt table depends only on which ids are active, not on their order or repetitions |
| `MmsConfig.ReloadAbortKeepsTable` | src/com/android/mms/service/MmsConfigManager.java:230-234 | with a null or empty active list, the table is left as it was |
| `MmsConfig.ReloadKeysAreActiveIds` | src/com/android/mms/service/MmsConfigManager.java:240-247 | after a successful load, the cached ids are exactly the active ids, so stale ids are removed; each maps to the filtered provider bundle |
| `MmsConfig.ReloadReplacesWholeTable` | src/com/android/mms/service/MmsConfigManager.java:245-248 | a successful load's result does not depend on the previous table, so it never mixes two loads |
| `MmsConfig.ReloadIdempotent` | src/com/android/mms/service/MmsConfigManager.java:235-248 | two loads in a row against the same platform state leave the same table as one load |
| `MmsConfig.ReloadKeepsValid` | src/com/android/mms/service/MmsConfigManager.java:229-249 | a load keeps every cached entry a well-formed MMS configuration |
| `MmsConfig.MmsConfigManager.constructor` | src/com/android/mms/service/MmsConfigManager.java:54 | the cache starts empty |
| `MmsConfig.MmsConfigManager.GetMmsConfigBySubId` | src/com/android/mms/service/MmsConfigManager.java:130-141 | returns None exactly when the id is not cached; otherwise returns a bundle equal to the cached one, which is a well-formed MMS configuration; the cache is only read |
| `MmsConfig.MmsConfigManager.Load` | src/com/android/mms/service/MmsConfigManager.java:229-249 | with a null or empty list the cache is unchanged. Otherwise the cache holds exactly the active ids, each mapped to its filtered carrier config. The loop invariant keeps the cache untouched while the scratch table is built |

## Left out

- The broadcast receiver, the subscription-change listener and `init` (lines 65-104): platform plumbing that decides when to load.
- `loadInBackground`'s thread and the `synchronized` blocks (lines 106-119, 132-134, 245-248): `Load` and `GetMmsConfigBySubId` are sequential methods. The atomic swap appears only as "the cache is not touched until the scratch table is complete".
- The singleton `sInstance` (lines 47-51) and the logging calls: they have no behaviour to verify.
- `SubscriptionManager`, `CarrierConfigManager` and `Bundle` are not part of this model. The services are the parameters `subs` and `provider`. The typed getters, and their defaults for a missing key or a value of another type, are modelling assumptions about `BaseBundle`.
- Load: the Java `load` returns nothing and only logs when it gives up. So `Load` has no result, and an aborted load shows only as an unchanged cache; no "configuration unavailable" status is reported.
- Load: `provider` is a total function. A null bundle from the carrier-config service would make the Java filter throw, and that case is not modelled.
- GetMmsConfigBySubId: bundles are immutable values, so the defensive copy (`new Bundle(...)`) is the cached value itself. The model shows that caller mutation cannot reach the cache, but not the copy as a separate object.
- The HTTP transport, macro resolution and the voluntary-disconnect exception are not part of this model. The exception class only forwards its constructor to its superclass.
