/** Property lookup on a JavaScript object literal, `obj[key]`. An object literal
    inherits the members of `Object.prototype`, so a key such as "constructor"
    finds an inherited function even though the literal never declares it. */
module JsObject {

  /** The names every plain object inherits from `Object.prototype`. */
  const PrototypeMembers: set<string> := {
    "constructor", "__proto__", "toString", "toLocaleString", "valueOf",
    "hasOwnProperty", "isPrototypeOf", "propertyIsEnumerable",
    "__defineGetter__", "__defineSetter__", "__lookupGetter__", "__lookupSetter__"
  }

  /** What `obj[key]` yields on a literal whose own properties are strings. */
  datatype Value = Own(text: string) | Inherited(name: string) | Undefined

  function Get(table: map<string, string>, key: string): (v: Value)
    ensures v.Own? <==> key in table
    ensures v.Inherited? <==> key !in table && key in PrototypeMembers
  {
    if key in table then Own(table[key])
    else if key in PrototypeMembers then Inherited(key)
    else Undefined
  }

  /** JavaScript truthiness of a looked-up value: inherited members are functions
      or objects, hence truthy; the empty string and `undefined` are falsy. */
  predicate Truthy(v: Value) {
    match v
    case Own(t) => t != ""
    case Inherited(_) => true
    case Undefined => false
  }

  /** `obj[key] || fallback`, as the code writes it. */
  function GetOr(table: map<string, string>, key: string, fallback: string): (v: Value)
    ensures key in table && table[key] != "" ==> v == Own(table[key])
    ensures key !in table && key !in PrototypeMembers ==> v == Own(fallback)
    ensures key !in table && key in PrototypeMembers ==> v == Inherited(key)
  {
    var v := Get(table, key);
    if Truthy(v) then v else Own(fallback)
  }

  /** An own-property lookup with the same fallback: what these lookups intend. */
  function OwnOr(table: map<string, string>, key: string, fallback: string): (s: string)
    ensures key in table && table[key] != "" ==> s == table[key]
    ensures key !in table ==> s == fallback
  {
    if key in table && table[key] != "" then table[key] else fallback
  }

  /** Where the as-written lookup yields a string it agrees with the own-property
      lookup; they part only on inherited names. */
  lemma GetOrAgreesOffPrototype(table: map<string, string>, key: string, fallback: string)
    requires key in table || key !in PrototypeMembers
    ensures GetOr(table, key, fallback) == Own(OwnOr(table, key, fallback))
  {
  }
}
