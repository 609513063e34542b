/**
 * The JavaScript values the front end handles without a static type: response
 * bodies, the fields read from them, and the values a `catch` receives.
 * Only the parts of JavaScript semantics that the modelled code relies on are
 * written out: truthiness, `typeof`, reading an own data property, `Object.values`,
 * `String(v)`, `Array.prototype.join` and the decimal rendering of integers.
 */
module Js {

  /** A JavaScript value. Numbers are integers here; objects keep their keys in insertion order. */
  datatype Value =
    | Undefined
    | Null
    | Bool(b: bool)
    | Num(n: int)
    | Str(s: string)
    | Arr(items: seq<Value>)
    | Obj(entries: seq<(string, Value)>)

  /** The value `v` is truthy: `if (v)`, `v && …`, `v || …` take the truthy branch. */
  predicate Truthy(v: Value) {
    match v
    case Undefined => false
    case Null => false
    case Bool(b) => b
    case Num(n) => n != 0
    case Str(s) => s != ""
    case Arr(_) => true
    case Obj(_) => true
  }

  /** `typeof v`. Arrays and null are both reported as "object". */
  function TypeOf(v: Value): string {
    match v
    case Undefined => "undefined"
    case Null => "object"
    case Bool(_) => "boolean"
    case Num(_) => "number"
    case Str(_) => "string"
    case Arr(_) | Obj(_) => "object"
  }

  /** `a || b`: the left operand when it is truthy, otherwise the right one. */
  function Or(a: Value, b: Value): Value {
    if Truthy(a) then a else b
  }

  /** The value stored under `key` in an entry list; the first entry with that key wins. */
  function Lookup(entries: seq<(string, Value)>, key: string): Value {
    if entries == [] then Undefined
    else if entries[0].0 == key then entries[0].1
    else Lookup(entries[1..], key)
  }

  /** Entries whose keys all differ from `key` do not affect what `key` reads. */
  lemma {:induction false} LookupSkip(front: seq<(string, Value)>, back: seq<(string, Value)>, key: string)
    requires forall i :: 0 <= i < |front| ==> front[i].0 != key
    ensures Lookup(front + back, key) == Lookup(back, key)
  {
    if front == [] {
      assert front + back == back;
    } else {
      assert (front + back)[1..] == front[1..] + back;
      LookupSkip(front[1..], back, key);
    }
  }

  /**
   * `v.key` for a `v` that is neither null nor undefined: an object's own data
   * property, and undefined for every other value (the keys the modelled code
   * reads are not built-in properties of strings, numbers or arrays).
   */
  function Prop(v: Value, key: string): Value {
    if v.Obj? then Lookup(v.entries, key) else Undefined
  }

  /** `Object.values(v)` for a `v` that is neither null nor undefined. `Object.keys(v)` has the same length. */
  function ObjectValues(v: Value): seq<Value> {
    match v
    case Obj(entries) => seq(|entries|, i requires 0 <= i < |entries| => entries[i].1)
    case Arr(items) => items
    case Str(s) => seq(|s|, i requires 0 <= i < |s| => Str([s[i]]))
    case _ => []
  }

  lemma ObjectValuesAppend(entries: seq<(string, Value)>, key: string, x: Value)
    ensures ObjectValues(Obj(entries + [(key, x)])) == ObjectValues(Obj(entries)) + [x]
  {
  }

  // ---------------------------------------------------------------------------
  // Decimal rendering of integers, as `${n}` and String(n) produce it

  function DigitChar(d: nat): char
    requires d < 10
  {
    ('0' as int + d) as char
  }

  function NatToString(n: nat): string
    decreases n
  {
    if n < 10 then [DigitChar(n)] else NatToString(n / 10) + [DigitChar(n % 10)]
  }

  function IntToString(n: int): string {
    if n < 0 then "-" + NatToString(-n) else NatToString(n)
  }

  predicate IsDigit(c: char) {
    '0' <= c <= '9'
  }

  /** The number a string of decimal digits denotes (the reading a user makes of the digits). */
  function DigitsValue(s: string): int
    requires forall i :: 0 <= i < |s| ==> IsDigit(s[i])
    decreases |s|
  {
    if s == [] then 0 else 10 * DigitsValue(s[..|s| - 1]) + (s[|s| - 1] as int - '0' as int)
  }

  /** The integer a decimal rendering denotes: an optional minus sign, then digits. */
  function ParseDecimal(s: string): int
    requires s != [] && (s[0] == '-' || IsDigit(s[0]))
    requires forall i :: 1 <= i < |s| ==> IsDigit(s[i])
  {
    if s[0] == '-' then -DigitsValue(s[1..]) else DigitsValue(s)
  }

  lemma {:induction false} NatToStringDigits(n: nat)
    ensures NatToString(n) != []
    ensures forall i :: 0 <= i < |NatToString(n)| ==> IsDigit(NatToString(n)[i])
    ensures DigitsValue(NatToString(n)) == n
    decreases n
  {
    var s := NatToString(n);
    if n < 10 {
      assert s[..|s| - 1] == [];
    } else {
      var p := NatToString(n / 10);
      NatToStringDigits(n / 10);
      assert s == p + [DigitChar(n % 10)];
      assert s[..|s| - 1] == p;
      assert DigitsValue(s) == 10 * (n / 10) + n % 10;
    }
  }

  /** The decimal rendering of an integer reads back as that integer: no two statuses render alike. */
  lemma IntToStringRoundTrip(n: int)
    ensures var s := IntToString(n);
      s != [] && (s[0] == '-' || IsDigit(s[0])) && (forall i :: 1 <= i < |s| ==> IsDigit(s[i]))
      && ParseDecimal(s) == n
  {
    if n < 0 {
      NatToStringDigits(-n);
      assert IntToString(n)[1..] == NatToString(-n);
    } else {
      NatToStringDigits(n);
    }
  }

  // ---------------------------------------------------------------------------
  // String conversion and Array.prototype.join

  /** `parts[0] + sep + parts[1] + … + sep + parts[n-1]`, the empty string for no parts. */
  function Join(parts: seq<string>, sep: string): string {
    if |parts| == 0 then ""
    else if |parts| == 1 then parts[0]
    else parts[0] + sep + Join(parts[1..], sep)
  }

  /** Joining one more part adds the separator and that part at the end, so parts keep their order. */
  lemma {:induction false} JoinSnoc(parts: seq<string>, x: string, sep: string)
    requires parts != []
    ensures Join(parts + [x], sep) == Join(parts, sep) + sep + x
  {
    if |parts| == 1 {
      assert (parts + [x])[1..] == [x];
    } else {
      assert (parts + [x])[1..] == parts[1..] + [x];
      JoinSnoc(parts[1..], x, sep);
    }
  }

  /** `String(v)`. */
  function ToString(v: Value): string
    decreases v, 1
  {
    match v
    case Undefined => "undefined"
    case Null => "null"
    case Bool(b) => if b then "true" else "false"
    case Num(n) => IntToString(n)
    case Str(s) => s
    case Arr(items) => ArrayJoin(items, ",")
    case Obj(_) => "[object Object]"
  }

  /** How `join` renders one element: null and undefined become the empty string. */
  function ElementString(v: Value): string
    decreases v, 2
  {
    if v.Null? || v.Undefined? then "" else ToString(v)
  }

  function ElementStrings(items: seq<Value>): (r: seq<string>)
    decreases items, 0
  {
    if items == [] then [] else [ElementString(items[0])] + ElementStrings(items[1..])
  }

  /** `items.join(sep)`. */
  function ArrayJoin(items: seq<Value>, sep: string): string
    decreases items, 1
  {
    Join(ElementStrings(items), sep)
  }

  lemma {:induction false} ElementStringsAppend(items: seq<Value>, x: Value)
    ensures ElementStrings(items + [x]) == ElementStrings(items) + [ElementString(x)]
  {
    if items == [] {
      assert [x][1..] == [];
    } else {
      assert (items + [x])[1..] == items[1..] + [x];
      ElementStringsAppend(items[1..], x);
    }
  }

  /** Joining an array with one more element appends the separator and that element's rendering. */
  lemma ArrayJoinSnoc(items: seq<Value>, x: Value, sep: string)
    requires items != []
    ensures ArrayJoin(items + [x], sep) == ArrayJoin(items, sep) + sep + ElementString(x)
  {
    ElementStringsAppend(items, x);
    JoinSnoc(ElementStrings(items), ElementString(x), sep);
  }
}
