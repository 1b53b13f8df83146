/** The in-memory session store of the main process (storage.js): a plain
    object that maps each key to the JSON text of the value last stored
    under it. */
module Storage {
  import opened JsValues
  import opened JsonText

  /** `appSessionStore` is a plain `{}`: a key it does not hold may still
      name a property inherited from Object.prototype. */
  const InheritedKeys: set<string> := {
    "constructor", "hasOwnProperty", "isPrototypeOf", "propertyIsEnumerable",
    "toLocaleString", "toString", "valueOf", "__defineGetter__",
    "__defineSetter__", "__lookupGetter__", "__lookupSetter__", "__proto__"}

  /** Assigning to `__proto__` runs the prototype setter, which ignores a
      string or undefined: the store keeps no entry for this key. */
  const ProtoKey := "__proto__"

  /** What getStoredValue gives: a value, or the SyntaxError JSON.parse
      throws on the text of an inherited function or of Object.prototype. */
  datatype Got = Value(value: Json) | SyntaxError

  /** What getStoredValue yields for `key`, given the values last set:
      the value as it comes back through JSON, undefined for a key that
      was never set, and a SyntaxError for an inherited key. */
  function StoredValue(values: map<string, Json>, key: string): Got {
    if key in values then Value(Normalize(values[key]))
    else if key in InheritedKeys then SyntaxError
    else Value(Undefined)
  }

  class SessionStore {
    /** appSessionStore: the JSON text held under each key; None where
        JSON.stringify gave undefined (the value set was undefined). */
    var entries: map<string, Option<string>>
    /** The values that were passed to setStoredValue, key by key. */
    ghost var values: map<string, Json>

    ghost predicate Valid()
      reads this
    {
      entries.Keys == values.Keys && ProtoKey !in entries &&
      forall k :: k in entries ==> entries[k] == Stringify(values[k])
    }

    /** The store starts out as an empty object. */
    constructor ()
      ensures Valid() && entries == map[] && values == map[]
    {
      entries := map[];
      values := map[];
    }

    /** setStoredValue({key, value}): stores the JSON text of `value` under
        `key`, replacing what was there and leaving every other key alone;
        the key `__proto__` stores nothing. */
    method SetStoredValue(key: string, value: Json)
      requires Valid()
      modifies this
      ensures Valid()
      ensures key == ProtoKey ==> entries == old(entries) && values == old(values)
      ensures key != ProtoKey ==> entries == old(entries)[key := Stringify(value)]
      ensures key != ProtoKey ==> values == old(values)[key := value]
    {
      if key == ProtoKey {
        return;
      }
      entries := entries[key := Stringify(value)];
      values := values[key := value];
    }

    /** getStoredValue(key): undefined when nothing (or undefined) is held
        under `key`, otherwise JSON.parse of the text held there; an
        inherited property is not undefined, and its text does not parse. */
    method GetStoredValue(key: string) returns (r: Got)
      requires Valid()
      ensures r == StoredValue(values, key)
      ensures key !in values ==> (r == SyntaxError <==> key in InheritedKeys)
      ensures key in values && Representable(values[key]) ==> r == Value(values[key])
    {
      if key !in entries {
        if key in InheritedKeys {
          return SyntaxError;
        }
        return Value(Undefined);
      }
      var held := entries[key];
      if held.None? {
        r := Value(Undefined);
      } else {
        StringifyParse(values[key]);
        var parsed := Parse(held.value);
        r := Value(parsed.value);
      }
      if Representable(values[key]) {
        ReviveRepresentable(values[key]);
      }
    }
  }

  /** Reading a key right after setting it gives back the value set, for
      every value JSON can represent and every key but `__proto__`, whose
      read then throws. */
  lemma SetThenGet(values: map<string, Json>, key: string, value: Json)
    requires Representable(value)
    ensures key != ProtoKey ==> StoredValue(values[key := value], key) == Value(value)
    ensures key == ProtoKey && ProtoKey !in values ==> StoredValue(values, key) == SyntaxError
  {
    ReviveRepresentable(value);
  }

  /** Setting one key leaves what every other key reads unchanged. */
  lemma SetKeepsOthers(values: map<string, Json>, key: string, value: Json, other: string)
    requires other != key
    ensures StoredValue(values[key := value], other) == StoredValue(values, other)
  {
  }
}
