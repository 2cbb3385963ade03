/**
 * The MMS configuration filter: projects a carrier-config bundle, which holds
 * MMS settings among many unrelated ones, onto the fixed set of MMS keys.
 *
 * The key names are the string values of the android.telephony.SmsManager
 * MMS_CONFIG_* constants; SmsManager itself is not part of this model.
 */
module MmsConfigFilter {
  import opened Bundles

  // Boolean keys
  const AppendTransactionId: string := "enabledTransID"
  const MmsEnabled: string := "enabledMMS"
  const GroupMmsEnabled: string := "enableGroupMms"
  const NotifyWapMmscEnabled: string := "enabledNotifyWapMMSC"
  const AliasEnabled: string := "aliasEnabled"
  const AllowAttachAudio: string := "allowAttachAudio"
  const MultipartSmsEnabled: string := "enableMultipartSMS"
  const SmsDeliveryReportEnabled: string := "enableSMSDeliveryReports"
  const SupportMmsContentDisposition: string := "supportMmsContentDisposition"
  const SendMultipartSmsAsSeparateMessages: string := "sendMultipartSmsAsSeparateMessages"
  const MmsReadReportEnabled: string := "enableMMSReadReports"
  const MmsDeliveryReportEnabled: string := "enableMMSDeliveryReports"
  const CloseConnection: string := "mmsCloseConnection"
  const ShowCellBroadcastAppLinks: string := "config_cellBroadcastAppLinks"
  const SupportHttpCharsetHeader: string := "supportHttpCharsetHeader"

  // Integer keys
  const MaxMessageSize: string := "maxMessageSize"
  const MaxImageWidth: string := "maxImageWidth"
  const MaxImageHeight: string := "maxImageHeight"
  const RecipientLimit: string := "recipientLimit"
  const AliasMinChars: string := "aliasMinChars"
  const AliasMaxChars: string := "aliasMaxChars"
  const SmsToMmsTextThreshold: string := "smsToMmsTextThreshold"
  const SmsToMmsTextLengthThreshold: string := "smsToMmsTextLengthThreshold"
  const MessageTextMaxSize: string := "maxMessageTextSize"
  const SubjectMaxLength: string := "maxSubjectLength"
  const HttpSocketTimeout: string := "httpSocketTimeout"

  // String keys
  const UaProfTagName: string := "uaProfTagName"
  const UserAgent: string := "userAgent"
  const UaProfUrl: string := "uaProfUrl"
  const HttpParams: string := "httpParams"
  const EmailGatewayNumber: string := "emailGatewayNumber"
  const NaiSuffix: string := "naiSuffix"

  /** The boolean keys. */
  const BooleanKeys: seq<string> := [
    AppendTransactionId, MmsEnabled, GroupMmsEnabled, NotifyWapMmscEnabled,
    AliasEnabled, AllowAttachAudio, MultipartSmsEnabled, SmsDeliveryReportEnabled,
    SupportMmsContentDisposition, SendMultipartSmsAsSeparateMessages,
    MmsReadReportEnabled, MmsDeliveryReportEnabled, CloseConnection,
    ShowCellBroadcastAppLinks, SupportHttpCharsetHeader
  ]

  /** The integer keys. */
  const IntKeys: seq<string> := [
    MaxMessageSize, MaxImageWidth, MaxImageHeight, RecipientLimit, AliasMinChars,
    AliasMaxChars, SmsToMmsTextThreshold, SmsToMmsTextLengthThreshold,
    MessageTextMaxSize, SubjectMaxLength, HttpSocketTimeout
  ]

  /** The string keys. */
  const StringKeys: seq<string> := [
    UaProfTagName, UserAgent, UaProfUrl, HttpParams, EmailGatewayNumber, NaiSuffix
  ]

  /** The keys in the order getMmsConfig puts them into the filtered bundle. */
  const PutOrder: seq<string> := [
    AppendTransactionId, MmsEnabled, GroupMmsEnabled, NotifyWapMmscEnabled,
    AliasEnabled, AllowAttachAudio, MultipartSmsEnabled, SmsDeliveryReportEnabled,
    SupportMmsContentDisposition, SendMultipartSmsAsSeparateMessages,
    MmsReadReportEnabled, MmsDeliveryReportEnabled, CloseConnection,
    MaxMessageSize, MaxImageWidth, MaxImageHeight, RecipientLimit, AliasMinChars,
    AliasMaxChars, SmsToMmsTextThreshold, SmsToMmsTextLengthThreshold,
    MessageTextMaxSize, SubjectMaxLength, HttpSocketTimeout,
    UaProfTagName, UserAgent, UaProfUrl, HttpParams, EmailGatewayNumber, NaiSuffix,
    ShowCellBroadcastAppLinks, SupportHttpCharsetHeader
  ]

  function KeySet(keys: seq<string>): set<string>
  {
    set k | k in keys
  }

  /** The fixed MMS key set. */
  const MmsKeys: set<string> := KeySet(BooleanKeys) + KeySet(IntKeys) + KeySet(StringKeys)

  /** What a filtered MMS configuration looks like: every MMS key, each with a value of its type. */
  ghost predicate IsMmsConfig(b: Bundle)
  {
    && b.Keys == MmsKeys
    && (forall k :: k in BooleanKeys ==> b[k].Bool?)
    && (forall k :: k in IntKeys ==> b[k].Int?)
    && (forall k :: k in StringKeys ==> b[k].Str?)
  }

  /** What the filter reads from `config` for the MMS key `k`: the getter of the key's type. */
  function TypedValue(config: Bundle, k: string): Value
  {
    if k in BooleanKeys then Bool(GetBoolean(config, k))
    else if k in IntKeys then Int(GetInt(config, k))
    else Str(GetString(config, k))
  }

  /** The puts of `keys`, one after the other, into `filtered`, each of the value read from `config`. */
  function PutAll(filtered: Bundle, config: Bundle, keys: seq<string>): Bundle
    decreases |keys|
  {
    if keys == [] then filtered
    else PutAll(filtered[keys[0] := TypedValue(config, keys[0])], config, keys[1..])
  }

  /**
   * getMmsConfig: a fresh bundle filled with one put per MMS key, in the
   * source's order, of the value read from `config` by that key's typed
   * getter. `config` is a value, so it is left as it was.
   */
  function GetMmsConfig(config: Bundle): (filtered: Bundle)
    ensures filtered.Keys == MmsKeys
    ensures forall k :: k in BooleanKeys ==> filtered[k] == Bool(GetBoolean(config, k))
    ensures forall k :: k in IntKeys ==> filtered[k] == Int(GetInt(config, k))
    ensures forall k :: k in StringKeys ==> filtered[k] == Str(GetString(config, k))
  {
    KeyGroups();
    PutOrderCoversKeys();
    PutAllEffect(map[], config, PutOrder);
    PutAll(map[], config, PutOrder)
  }

  /** After the puts of `keys`, exactly those keys are added, each holding the value read for it. */
  lemma {:induction false} PutAllEffect(filtered: Bundle, config: Bundle, keys: seq<string>)
    ensures PutAll(filtered, config, keys).Keys == filtered.Keys + KeySet(keys)
    ensures forall k :: k in keys ==> PutAll(filtered, config, keys)[k] == TypedValue(config, k)
    ensures forall k :: k in filtered && k !in keys ==> PutAll(filtered, config, keys)[k] == filtered[k]
    decreases |keys|
  {
    if keys != [] {
      var next := filtered[keys[0] := TypedValue(config, keys[0])];
      PutAllEffect(next, config, keys[1..]);
      assert keys == [keys[0]] + keys[1..];
      assert KeySet(keys) == {keys[0]} + KeySet(keys[1..]);
    }
  }

  /** No element of `s` occurs twice. */
  predicate Distinct(s: seq<string>)
  {
    forall i, j :: 0 <= i < j < |s| ==> s[i] != s[j]
  }

  /** No element of `s` occurs in `t`. */
  predicate Apart(s: seq<string>, t: seq<string>)
  {
    forall i, j :: 0 <= i < |s| && 0 <= j < |t| ==> s[i] != t[j]
  }

  /** The key names are pairwise different. */
  lemma KeysDistinct()
    ensures Distinct(BooleanKeys) && Distinct(IntKeys) && Distinct(StringKeys)
    ensures Apart(BooleanKeys, IntKeys) && Apart(BooleanKeys, StringKeys) && Apart(IntKeys, StringKeys)
  {
  }

  /** The filter puts every MMS key and no other. */
  lemma PutOrderCoversKeys()
    ensures forall k :: k in PutOrder <==> k in BooleanKeys || k in IntKeys || k in StringKeys
  {
  }

  /** A sequence without repetitions has as many distinct elements as it has positions. */
  lemma {:induction false} DistinctCardinality(s: seq<string>)
    requires Distinct(s)
    ensures |KeySet(s)| == |s|
  {
    if s != [] {
      var rest := s[1..];
      assert Distinct(rest) by {
        forall i, j | 0 <= i < j < |rest| ensures rest[i] != rest[j] {
          assert rest[i] == s[i + 1] && rest[j] == s[j + 1];
        }
      }
      DistinctCardinality(rest);
      assert s[0] !in rest by {
        forall i | 0 <= i < |rest| ensures rest[i] != s[0] {
          assert rest[i] == s[i + 1];
        }
      }
      assert KeySet(s) == KeySet(rest) + {s[0]} by {
        assert s == [s[0]] + rest;
      }
    }
  }

  /**
   * The MMS key set has exactly 32 keys (15 boolean, 11 integer, 6 string),
   * the typed groups do not overlap, and the filter puts every one of them.
   */
  lemma KeyGroups()
    ensures |KeySet(BooleanKeys)| == 15 && |KeySet(IntKeys)| == 11 && |KeySet(StringKeys)| == 6
    ensures |MmsKeys| == 32
    ensures forall k :: k in BooleanKeys ==> k !in IntKeys && k !in StringKeys
    ensures forall k :: k in IntKeys ==> k !in StringKeys
    ensures KeySet(PutOrder) == MmsKeys
  {
    PutOrderCoversKeys();
    KeysDistinct();
    DistinctCardinality(BooleanKeys);
    DistinctCardinality(IntKeys);
    DistinctCardinality(StringKeys);
    var b, i, s := KeySet(BooleanKeys), KeySet(IntKeys), KeySet(StringKeys);
    assert b * i == {} && (b + i) * s == {};
  }

  /** Every result of the filter is a well-formed MMS configuration. */
  lemma FilterIsMmsConfig(config: Bundle)
    ensures IsMmsConfig(GetMmsConfig(config))
  {
  }

  /**
   * Totality with defaults: an MMS key holding a value of its type is copied;
   * a missing key, or one holding a value of another type, gets false, 0 or null.
   */
  lemma FilterCopiesOrDefaults(config: Bundle, k: string)
    requires k in MmsKeys
    ensures k in BooleanKeys ==>
      GetMmsConfig(config)[k] == (if k in config && config[k].Bool? then config[k] else Bool(false))
    ensures k in IntKeys ==>
      GetMmsConfig(config)[k] == (if k in config && config[k].Int? then config[k] else Int(0))
    ensures k in StringKeys ==>
      GetMmsConfig(config)[k] == (if k in config && config[k].Str? then config[k] else Str(None))
  {
  }

  /** Filtering a filtered configuration gives it back unchanged. */
  lemma FilterFixesMmsConfig(b: Bundle)
    requires IsMmsConfig(b)
    ensures GetMmsConfig(b) == b
  {
    var filtered := GetMmsConfig(b);
    forall k | k in MmsKeys ensures filtered[k] == b[k] {
      if k in BooleanKeys {
      } else if k in IntKeys {
      } else {
        assert k in StringKeys;
      }
    }
  }

  /** The filter is a projection: applying it twice is applying it once. */
  lemma FilterIdempotent(config: Bundle)
    ensures GetMmsConfig(GetMmsConfig(config)) == GetMmsConfig(config)
  {
    FilterIsMmsConfig(config);
    FilterFixesMmsConfig(GetMmsConfig(config));
  }

  /** `c` and `d` hold the same keys with the same values, as far as `keys` goes. */
  ghost predicate AgreeOn(c: Bundle, d: Bundle, keys: set<string>)
  {
    forall k :: k in keys ==> (k in c <==> k in d) && (k in c ==> c[k] == d[k])
  }

  /** The result depends on the MMS keys of the input only: whatever else it holds is dropped. */
  lemma FilterDependsOnlyOnMmsKeys(c: Bundle, d: Bundle)
    requires AgreeOn(c, d, MmsKeys)
    ensures GetMmsConfig(c) == GetMmsConfig(d)
  {
    var fc, fd := GetMmsConfig(c), GetMmsConfig(d);
    forall k | k in MmsKeys ensures fc[k] == fd[k] {
      if k in BooleanKeys {
      } else if k in IntKeys {
      } else {
        assert k in StringKeys;
      }
    }
  }

  /** Adding or changing a key outside the MMS key set does not change the result. */
  lemma FilterIgnoresOtherKey(config: Bundle, k: string, v: Value)
    requires k !in MmsKeys
    ensures GetMmsConfig(config[k := v]) == GetMmsConfig(config)
  {
    FilterDependsOnlyOnMmsKeys(config[k := v], config);
  }

  /** The result is the filter of the input cut down to its MMS keys. */
  lemma FilterOfRestriction(config: Bundle)
    ensures GetMmsConfig(config) == GetMmsConfig(map k | k in config && k in MmsKeys :: config[k])
  {
    FilterDependsOnlyOnMmsKeys(config, map k | k in config && k in MmsKeys :: config[k]);
  }
}
