/** JavaScript values as the worker sees them: the result of JSON.parse, the
    fields of a stored payload and the body of a transport reply. */
module Js {

  datatype Option<+T> = None | Some(value: T)

  /** A computation that either yields a value or throws an error whose message is given. */
  datatype Result<+T> = Ok(value: T) | Err(message: string)

  /** Numbers are integral here; JSON fractions and NaN are not modelled. */
  datatype JsValue =
    | Undefined
    | Null
    | Bool(b: bool)
    | Num(n: int)
    | Str(s: string)
    | Arr(items: seq<JsValue>)
    | Obj(fields: map<string, JsValue>)

  /** JavaScript truthiness: what `if (v)`, `v || w` and `!v` test. */
  predicate Truthy(v: JsValue) {
    match v
    case Undefined => false
    case Null => false
    case Bool(b) => b
    case Num(n) => n != 0
    case Str(s) => s != ""
    case Arr(_) => true
    case Obj(_) => true
  }

  /** `a || b`: the first operand when it is truthy, otherwise the second. */
  function Or(a: JsValue, b: JsValue): (r: JsValue)
    ensures Truthy(a) ==> r == a
    ensures !Truthy(a) ==> r == b
    ensures Truthy(r) <==> Truthy(a) || Truthy(b)
  {
    if Truthy(a) then a else b
  }

  /** Property access on a plain object: a missing key reads as undefined. */
  function Get(fields: map<string, JsValue>, key: string): (r: JsValue)
    ensures key !in fields ==> r == Undefined
    ensures key in fields ==> r == fields[key]
  {
    if key in fields then fields[key] else Undefined
  }

  function DigitChar(d: nat): (c: char)
    requires d < 10
    ensures '0' <= c <= '9'
    ensures c as int - '0' as int == d
  {
    ('0' as int + d) as char
  }

  /** The number a string of decimal digits denotes, read from the left. */
  function DecimalValue(s: string): nat
    requires forall i :: 0 <= i < |s| ==> '0' <= s[i] <= '9'
  {
    if s == [] then 0 else 10 * DecimalValue(s[..|s| - 1]) + (s[|s| - 1] as int - '0' as int)
  }

  /** Decimal notation of a natural number, without leading zeros. */
  function NatToString(n: nat): (r: string)
    ensures r != []
    ensures forall i :: 0 <= i < |r| ==> '0' <= r[i] <= '9'
    ensures DecimalValue(r) == n
    ensures r[0] == '0' <==> n == 0
    ensures n < 10 <==> |r| == 1
    decreases n
  {
    if n < 10 then [DigitChar(n)] else
      var init := NatToString(n / 10);
      var r := init + [DigitChar(n % 10)];
      assert r[..|r| - 1] == init;
      r
  }

  function IntToString(n: int): (r: string)
    ensures r != []
    ensures n < 0 <==> r[0] == '-'
  {
    if n < 0 then "-" + NatToString(-n) else NatToString(n)
  }

  /** The TypeError message of a failed conversion to a string. */
  const NoPrimitive := "Cannot convert object to primitive value"

  /** `String(v)`, and the `${v}` of a template literal. Arrays join their
      elements with commas, null and undefined elements becoming empty. An
      object prints as "[object Object]" through the `toString` it inherits;
      a parsed object with its own `toString` key has no callable `toString`
      and an inherited `valueOf` that returns the object itself, so the
      conversion throws a TypeError. */
  function ToString(v: JsValue): (r: Result<string>)
    ensures v.Str? ==> r == Ok(v.s)
    ensures r.Err? ==> r.message == NoPrimitive
    ensures v.Obj? ==> (r.Err? <==> "toString" in v.fields)
    ensures r.Ok? && !v.Str? && !v.Arr? ==> r.value != ""
    decreases v, 1, 0
  {
    match v
    case Undefined => Ok("undefined")
    case Null => Ok("null")
    case Bool(b) => Ok(if b then "true" else "false")
    case Num(n) => Ok(IntToString(n))
    case Str(s) => Ok(s)
    case Arr(items) => JoinFrom(v, 0)
    case Obj(fields) => if "toString" in fields then Err(NoPrimitive) else Ok("[object Object]")
  }

  /** The elements of array `v` from index `i` on, as `Array.prototype.join`
      writes them; the first element that cannot be converted throws. */
  function JoinFrom(v: JsValue, i: nat): (r: Result<string>)
    requires v.Arr? && i <= |v.items|
    ensures r.Err? ==> r.message == NoPrimitive
    decreases v, 0, |v.items| - i
  {
    if i == |v.items| then Ok("")
    else
      var item := v.items[i];
      var text := if item.Null? || item.Undefined? then Ok("") else ToString(item);
      if text.Err? || i + 1 == |v.items| then text
      else
        match JoinFrom(v, i + 1)
        case Ok(rest) => Ok(text.value + "," + rest)
        case Err(e) => Err(e)
  }

  /** The value converts to a string without throwing. */
  predicate Prints(v: JsValue) {
    ToString(v).Ok?
  }

  /** An array throws as soon as one of its elements throws, wherever it stands. */
  lemma {:induction false} JoinFromThrows(v: JsValue, j: nat, i: nat)
    requires v.Arr? && j <= i < |v.items|
    requires !v.items[i].Null? && !v.items[i].Undefined? && ToString(v.items[i]).Err?
    ensures JoinFrom(v, j) == Err(NoPrimitive)
    decreases i - j
  {
    if j < i {
      JoinFromThrows(v, j + 1, i);
    }
  }

  /** Conversion of an array fails exactly when it fails for an element
      that is neither null nor undefined. */
  lemma ArrayPrints(v: JsValue)
    requires v.Arr?
    ensures Prints(v) <==> forall i :: 0 <= i < |v.items| && !v.items[i].Null? && !v.items[i].Undefined? ==> Prints(v.items[i])
  {
    if !Prints(v) {
      JoinFromPrints(v, 0);
    } else {
      forall i | 0 <= i < |v.items| && !v.items[i].Null? && !v.items[i].Undefined?
        ensures Prints(v.items[i])
      {
        if !Prints(v.items[i]) {
          JoinFromThrows(v, 0, i);
        }
      }
    }
  }

  /** A failed join is a failed element at or after index j. */
  lemma {:induction false} JoinFromPrints(v: JsValue, j: nat)
    requires v.Arr? && j <= |v.items| && JoinFrom(v, j).Err?
    ensures exists i :: j <= i < |v.items| && !v.items[i].Null? && !v.items[i].Undefined? && !Prints(v.items[i])
    decreases |v.items| - j
  {
    var item := v.items[j];
    if (item.Null? || item.Undefined? || Prints(item)) {
      JoinFromPrints(v, j + 1);
    }
  }
}
