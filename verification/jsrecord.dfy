/**
 * Key lookup on a plain JavaScript object used as a `Record<string, …>`, as the session and
 * page tables are. Such an object also answers the names it inherits from `Object.prototype`.
 */
module JsRecord {

  /** Property names every plain object inherits; each one reads as a truthy value. */
  const INHERITED_NAMES: set<string> := {
    "constructor", "__proto__", "hasOwnProperty", "isPrototypeOf", "propertyIsEnumerable",
    "toLocaleString", "toString", "valueOf", "__defineGetter__", "__defineSetter__",
    "__lookupGetter__", "__lookupSetter__"
  }

  /** `!!record[key]` for a record whose own values are all objects: own keys and inherited names. */
  predicate TruthyLookup<V>(record: map<string, V>, key: string) {
    key in record || key in INHERITED_NAMES
  }

  /** No inherited name is a decimal numeral. */
  lemma InheritedNamesAreNotNumerals(key: string)
    requires key in INHERITED_NAMES
    ensures |key| > 0 && !('0' <= key[0] <= '9')
  {
  }
}
