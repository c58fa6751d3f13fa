/**
  The dynamically typed JavaScript values the library receives from its callers and
  from the HTTP layer, with the three pieces of JavaScript semantics the library
  relies on: truthiness (`!x`, `x || y`), property lookup (`o.key`, `o?.key`) and the
  string conversion a template literal applies (`${x}`).
*/
module JsValues {

  /**
    A JavaScript value. Numbers are integers; an object is its list of own
    enumerable properties in enumeration order (the order `Object.entries` yields),
    each key appearing once.
  */
  datatype JsValue =
    | Undefined
    | Null
    | Bool(b: bool)
    | Num(n: int)
    | Str(s: string)
    | Arr(elems: seq<JsValue>)
    | Obj(props: seq<Prop>)

  datatype Prop = Prop(key: string, value: JsValue)

  /** JavaScript truthiness: `undefined`, `null`, `false`, `0` and `""` are falsy. */
  predicate Truthy(v: JsValue)
  {
    match v
    case Undefined => false
    case Null => false
    case Bool(b) => b
    case Num(n) => n != 0
    case Str(s) => s != ""
    case Arr(_) => true
    case Obj(_) => true
  }

  /** `a || b`: the first operand when it is truthy, otherwise the second. */
  function Or(a: JsValue, b: JsValue): (r: JsValue)
    ensures Truthy(a) ==> r == a
    ensures !Truthy(a) ==> r == b
  {
    if Truthy(a) then a else b
  }

  /** `typeof v === 'object'` (true for `null` and arrays as well). */
  predicate IsObjectType(v: JsValue)
  {
    v.Null? || v.Arr? || v.Obj?
  }

  /**
    `v?.key` for a key that is not inherited from a prototype: the value of the
    first own property named `key` of an object, and `undefined` for everything else.
  */
  function Get(v: JsValue, key: string): (r: JsValue)
    ensures !v.Obj? ==> r == Undefined
    ensures v.Obj? && r != Undefined ==> exists i | 0 <= i < |v.props| :: v.props[i] == Prop(key, r)
  {
    if v.Obj? then Lookup(v.props, key) else Undefined
  }

  function Lookup(props: seq<Prop>, key: string): (r: JsValue)
    ensures r != Undefined ==> exists i | 0 <= i < |props| :: props[i] == Prop(key, r)
    ensures (forall i | 0 <= i < |props| :: props[i].key != key) ==> r == Undefined
    ensures |props| > 0 && props[0].key == key ==> r == props[0].value
  {
    if |props| == 0 then Undefined
    else if props[0].key == key then props[0].value
    else Lookup(props[1..], key)
  }

  /** The property found by a lookup is the first one with the key. */
  lemma {:induction false} LookupAt(props: seq<Prop>, key: string, i: nat)
    requires i < |props| && props[i].key == key
    requires forall j | 0 <= j < i :: props[j].key != key
    ensures Lookup(props, key) == props[i].value
  {
    if i > 0 {
      LookupAt(props[1..], key, i - 1);
    }
  }

  /** The decimal digits of a natural number, most significant first. */
  function Decimal(n: nat): (r: string)
    ensures |r| >= 1
    ensures forall i | 0 <= i < |r| :: '0' <= r[i] <= '9'
    ensures |r| > 1 ==> r[0] != '0'
  {
    if n < 10 then [Digit(n)] else Decimal(n / 10) + [Digit(n % 10)]
  }

  function Digit(d: nat): (c: char)
    requires d < 10
    ensures '0' <= c <= '9' && c as int - '0' as int == d
  {
    ('0' as int + d) as char
  }

  /** Reads a string of decimal digits back as the number it denotes. */
  function DecimalValue(r: string): (n: nat)
    requires forall i | 0 <= i < |r| :: '0' <= r[i] <= '9'
  {
    if |r| == 0 then 0
    else 10 * DecimalValue(r[..|r| - 1]) + (r[|r| - 1] as int - '0' as int)
  }

  /** `Decimal` loses nothing: reading its digits back gives the number. */
  lemma {:induction false} DecimalRoundTrip(n: nat)
    ensures DecimalValue(Decimal(n)) == n
  {
    if n >= 10 {
      DecimalRoundTrip(n / 10);
      var r := Decimal(n);
      assert r[..|r| - 1] == Decimal(n / 10);
    }
  }

  /** So two different numbers never print alike. */
  lemma DecimalInjective(m: nat, n: nat)
    requires Decimal(m) == Decimal(n)
    ensures m == n
  {
    DecimalRoundTrip(m);
    DecimalRoundTrip(n);
  }

  /** `String(n)` for an integer number. */
  function NumberToString(n: int): (r: string)
    ensures n >= 0 ==> r == Decimal(n)
    ensures n < 0 ==> r == "-" + Decimal(-n)
  {
    if n < 0 then "-" + Decimal(-n) else Decimal(n)
  }

  /**
    The string a template literal `${v}` produces. An array joins its elements with
    commas, writing `null` and `undefined` elements as empty strings; a plain object
    prints as "[object Object]".
  */
  function TemplateString(v: JsValue): (r: string)
    ensures v.Str? ==> r == v.s
    ensures v.Num? ==> r == NumberToString(v.n)
    decreases v, 1
  {
    match v
    case Undefined => "undefined"
    case Null => "null"
    case Bool(b) => if b then "true" else "false"
    case Num(n) => NumberToString(n)
    case Str(s) => s
    case Arr(elems) => JoinElements(seq(|elems|, i requires 0 <= i < |elems| => ElementString(elems[i], v)))
    case Obj(_) => "[object Object]"
  }

  /** One element of an array as `Array.prototype.join` writes it. */
  function ElementString(e: JsValue, parent: JsValue): string
    requires e < parent
    decreases parent, 0
  {
    if e.Undefined? || e.Null? then "" else TemplateString(e)
  }

  function JoinElements(parts: seq<string>): (r: string)
    ensures |parts| == 1 ==> r == parts[0]
  {
    if |parts| == 0 then ""
    else if |parts| == 1 then parts[0]
    else parts[0] + "," + JoinElements(parts[1..])
  }
}
