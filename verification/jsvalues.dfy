/**
  JavaScript values as they reach the service from parsed request bodies and
  query strings, with the truthiness test the source uses in its `if (x)` and
  `x || y` guards, and the read/write behaviour of a plain object literal
  (whose prototype is `Object.prototype`).
 */
module JsValues {

  /** A JavaScript value. `Inherited(name)` stands for a member of
      `Object.prototype` (a function, or the prototype object itself) seen
      through a plain object's prototype chain. */
  datatype JsValue =
    | Undefined
    | Null
    | Bool(b: bool)
    | Num(n: real)
    | NaN
    | Str(s: string)
    | Arr(items: seq<JsValue>)
    | Obj(props: map<string, JsValue>)
    | Inherited(name: string)

  /** JavaScript truthiness: `undefined`, `null`, `false`, `0`, `NaN` and
      the empty string are falsy; everything else is truthy. */
  predicate Truthy(v: JsValue) {
    match v
    case Undefined => false
    case Null => false
    case Bool(b) => b
    case Num(n) => n != 0.0
    case NaN => false
    case Str(s) => s != ""
    case Arr(_) => true
    case Obj(_) => true
    case Inherited(_) => true
  }

  /** A JavaScript `TypeError` raised by a property access or call. */
  datatype TypeError = TypeError(message: string)

  /** The property names every plain object inherits from `Object.prototype`. */
  const ObjectPrototypeNames: set<string> := {
    "constructor", "__proto__", "hasOwnProperty", "isPrototypeOf",
    "propertyIsEnumerable", "toLocaleString", "toString", "valueOf",
    "__defineGetter__", "__defineSetter__", "__lookupGetter__", "__lookupSetter__"
  }

  /** Reading a key of a plain object with own properties `props`: an own
      property wins, then the prototype chain, then `undefined`. */
  function GetProperty(props: map<string, JsValue>, key: string): (v: JsValue)
    ensures key in props ==> v == props[key]
    ensures key !in props && key in ObjectPrototypeNames ==> v == Inherited(key) && Truthy(v)
    ensures key !in props && key !in ObjectPrototypeNames ==> v == Undefined && !Truthy(v)
  {
    if key in props then props[key]
    else if key in ObjectPrototypeNames then Inherited(key)
    else Undefined
  }

  /** Assigning a string `s` to a key in sloppy-mode code: it creates or
      overwrites an own property, except that assigning a primitive to the
      inherited `__proto__` accessor is silently ignored. */
  function AssignString(props: map<string, JsValue>, key: string, s: string): (r: map<string, JsValue>)
    ensures key in props ==> r == props[key := Str(s)]
    ensures key !in props && key == "__proto__" ==> r == props
    ensures key !in props && key != "__proto__" ==> r.Keys == props.Keys + {key} && r[key] == Str(s)
    ensures forall k :: k in props && k != key ==> k in r && r[k] == props[k]
  {
    if key !in props && key == "__proto__" then props else props[key := Str(s)]
  }
}
