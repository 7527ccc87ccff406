/**
 * The part of JavaScript's value semantics that the handlers rely on: what a
 * Lambda event, a parsed request body or a DynamoDB item can hold, when a value
 * is truthy (the `||` of the handlers), what reading a property yields, and the
 * text `String(v)` (and so a template literal) produces.
 *
 * Numbers are integers; floating point, NaN and exponent notation are not modelled.
 */
module Js {

  datatype Option<T> = None | Some(value: T)

  datatype Value =
    | Undefined
    | Null
    | Bool(b: bool)
    | Num(n: int)
    | Str(s: string)
    | Arr(elems: seq<Value>)
    | Obj(fields: map<string, Value>)

  /** JavaScript's ToBoolean: `undefined`, `null`, `false`, `0` and `""` are falsy. */
  predicate Truthy(v: Value) {
    match v
    case Undefined => false
    case Null => false
    case Bool(b) => b
    case Num(n) => n != 0
    case Str(s) => s != ""
    case Arr(_) => true
    case Obj(_) => true
  }

  /** `a || b`: the first operand when it is truthy, the second otherwise. */
  function Or(a: Value, b: Value): (r: Value)
    ensures r == a || r == b
    ensures Truthy(r) <==> Truthy(a) || Truthy(b)
    ensures Truthy(a) ==> r == a
    ensures !Truthy(a) ==> r == b
  {
    if Truthy(a) then a else b
  }

  /** The result of `base.name` / `base[name]`: a value, or the TypeError thrown on `undefined` and `null`. */
  datatype Access = Read(value: Value) | CannotRead

  predicate IsDigit(c: char) {
    '0' <= c <= '9'
  }

  /** A property key that names an array (or string) index: decimal digits without a leading zero. */
  predicate IsIndexKey(key: string) {
    && |key| > 0
    && (forall i :: 0 <= i < |key| ==> IsDigit(key[i]))
    && (key[0] == '0' ==> |key| == 1)
  }

  function DigitValue(c: char): nat
    requires IsDigit(c)
  {
    c as int - '0' as int
  }

  function DigitChar(d: nat): (c: char)
    requires d < 10
    ensures IsDigit(c) && DigitValue(c) == d
  {
    ('0' as int + d) as char
  }

  /** The number a string of decimal digits denotes. */
  function DecimalValue(key: string): nat
    requires forall i :: 0 <= i < |key| ==> IsDigit(key[i])
  {
    if key == [] then 0 else DecimalValue(key[..|key| - 1]) * 10 + DigitValue(key[|key| - 1])
  }

  /** The decimal text of a natural number, as `String(n)` renders it. */
  function NatText(n: nat): string {
    if n < 10 then [DigitChar(n)] else NatText(n / 10) + [DigitChar(n % 10)]
  }

  function IntText(n: int): string {
    if n < 0 then "-" + NatText(-n) else NatText(n)
  }

  /**
   * The decimal text of an index is an index key that denotes that index, so
   * `a[i]` (whose key is `String(i)`) reads element `i`.
   */
  lemma {:induction false} IndexKeyRoundTrip(n: nat)
    ensures IsIndexKey(NatText(n)) && DecimalValue(NatText(n)) == n
  {
    if n >= 10 {
      IndexKeyRoundTrip(n / 10);
      var t := NatText(n);
      assert t[..|t| - 1] == NatText(n / 10);
    }
  }

  /** `base.key`, own properties only (nothing from a prototype chain). */
  function GetProperty(base: Value, key: string): (r: Access)
    ensures r.CannotRead? <==> base.Undefined? || base.Null?
    ensures base.Obj? ==> r == Read(if key in base.fields then base.fields[key] else Undefined)
    ensures base.Bool? || base.Num? ==> r == Read(Undefined)
  {
    match base
    case Undefined => CannotRead
    case Null => CannotRead
    case Bool(_) => Read(Undefined)
    case Num(_) => Read(Undefined)
    case Str(s) =>
      if IsIndexKey(key) && DecimalValue(key) < |s| then Read(Str([s[DecimalValue(key)]]))
      else if key == "length" then Read(Num(|s|))
      else Read(Undefined)
    case Arr(es) =>
      if IsIndexKey(key) && DecimalValue(key) < |es| then Read(es[DecimalValue(key)])
      else if key == "length" then Read(Num(|es|))
      else Read(Undefined)
    case Obj(fs) => Read(if key in fs then fs[key] else Undefined)
  }

  /** `base[i]` for a numeric index `i`. */
  function GetIndex(base: Value, i: nat): Access {
    GetProperty(base, NatText(i))
  }

  lemma ArrayIndex(es: seq<Value>, i: nat)
    ensures GetIndex(Arr(es), i) == if i < |es| then Read(es[i]) else Read(Undefined)
  {
    IndexKeyRoundTrip(i);
    assert NatText(i) != "length" by {
      assert IsDigit(NatText(i)[0]);
    }
  }

  /** `parts.join(",")` */
  function JoinWithCommas(parts: seq<string>): string {
    if |parts| == 0 then ""
    else if |parts| == 1 then parts[0]
    else parts[0] + "," + JoinWithCommas(parts[1..])
  }

  /**
   * Whether `String(v)` succeeds. An object with its own `toString` key cannot
   * be converted: a value that JSON gives that key is never callable, and the
   * `valueOf` tried next returns the object itself, so the conversion throws a
   * TypeError. An array converts by converting its elements.
   */
  predicate Printable(v: Value) {
    match v
    case Obj(fs) => "toString" !in fs
    case Arr(es) => forall i :: 0 <= i < |es| ==> Printable(es[i])
    case _ => true
  }

  /** `String(v)`: the text a template literal interpolates for `v`. */
  function Text(v: Value): (r: string)
    requires Printable(v)
    // a string is its own text
    ensures v.Str? ==> r == v.s
    // a natural number prints as the decimal index key that denotes it
    ensures v.Num? && v.n >= 0 ==> IsIndexKey(r) && DecimalValue(r) == v.n
    // a one-element list prints as its element (`String(["GET"]) == "GET"`)
    ensures v.Arr? && |v.elems| == 1 && v.elems[0].Str? ==> r == v.elems[0].s
    // only a string, or a list, can print as the empty text
    ensures r == "" ==> v.Str? || v.Arr?
  {
    match v
    case Undefined => "undefined"
    case Null => "null"
    case Bool(b) => if b then "true" else "false"
    case Num(n) => if n >= 0 then IndexKeyRoundTrip(n); IntText(n) else IntText(n)
    case Str(s) => s
    case Arr(es) =>
      // Array.prototype.toString joins the elements, rendering undefined and null as ""
      JoinWithCommas(seq(|es|, i requires 0 <= i < |es| =>
        if es[i].Undefined? || es[i].Null? then "" else Text(es[i])))
    case Obj(_) => "[object Object]"
  }
}
