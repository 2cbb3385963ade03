/**
 * Android's Bundle / PersistableBundle, reduced to what the MMS configuration
 * cache uses: a map from string keys to loosely typed values, read back
 * through typed getters that fall back to a default value.
 */
module Bundles {

  datatype Option<+T> = None | Some(value: T)

  /** A Java `int`. */
  newtype int32 = x: int | -0x8000_0000 <= x < 0x8000_0000

  /** A value stored under a key of a bundle. */
  datatype Value =
    | Bool(b: bool)
    | Int(i: int32)
    // Str(None) is a stored Java null, whichever putter stored it
    | Str(s: Option<string>)
    // a value of a type the MMS filter never reads (long, double, array, nested bundle, ...)
    | Other

  /** A bundle: putX(k, v) is the update `bundle[k := v]`. */
  type Bundle = map<string, Value>

  /**
   * getBoolean(key): the stored boolean, or false when the key is missing
   * or holds a value of another type (or null).
   */
  function GetBoolean(bundle: Bundle, key: string): bool
  {
    if key in bundle && bundle[key].Bool? then bundle[key].b else false
  }

  /** getInt(key): the stored int, or 0 when the key is missing or holds another type. */
  function GetInt(bundle: Bundle, key: string): int32
  {
    if key in bundle && bundle[key].Int? then bundle[key].i else 0
  }

  /** getString(key): the stored string, or null when the key is missing or holds another type. */
  function GetString(bundle: Bundle, key: string): Option<string>
  {
    if key in bundle && bundle[key].Str? then bundle[key].s else None
  }
}
