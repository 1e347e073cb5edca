/**
  The JavaScript values the configuration objects and callback states are
  made of, with the two coercions the source relies on: truthiness (`if (x)`,
  `x || y`, `!x`) and string conversion (template literals, `String(x)`).
  Numbers are integral here.
 */
module JsValues {
  import opened Text

  datatype JsValue =
    | Undefined
    | Null
    | Bool(b: bool)
    | Num(n: int)
    | Str(s: string)
    | Arr(items: seq<JsValue>)
    | Obj(fields: map<string, JsValue>)

  /** ToBoolean: undefined, null, false, 0 and "" are falsy; everything else is truthy. */
  predicate Truthy(v: JsValue)
  {
    match v
    case Undefined => false
    case Null => false
    case Bool(b) => b
    case Num(n) => n != 0
    case Str(s) => s != ""
    case Arr(_) => true
    case Obj(_) => true
  }

  /** The six falsy values of ECMAScript (section 7.1.2, ToBoolean), with NaN and -0 left out. */
  lemma FalsyValues(v: JsValue)
    ensures !Truthy(v) <==> v == Undefined || v == Null || v == Bool(false) || v == Num(0) || v == Str("")
  {
  }

  /**
    Property read `v[key]`. An object's own field, or undefined. None of the
    keys the model reads (`code`, `id`, `client_id`, ...) names an inherited
    property of a primitive or an array, so undefined is also exact for those.
   */
  function Get(v: JsValue, key: string): JsValue
  {
    if v.Obj? && key in v.fields then v.fields[key] else Undefined
  }

  /** Reading a property after assigning it gives the assigned value; other properties keep theirs. */
  lemma GetAfterAssign(fields: map<string, JsValue>, key: string, value: JsValue, other: string)
    ensures Get(Obj(fields[key := value]), key) == value
    ensures other != key ==> Get(Obj(fields[key := value]), other) == Get(Obj(fields), other)
  {
  }

  /** `v || fallback`: the first operand when it is truthy, otherwise the second. */
  function Or(v: JsValue, fallback: JsValue): JsValue
  {
    if Truthy(v) then v else fallback
  }

  /** `a || b` is one of its operands, and it is truthy exactly when one of them is. */
  lemma OrTruthy(a: JsValue, b: JsValue)
    ensures Or(a, b) == a || Or(a, b) == b
    ensures Truthy(Or(a, b)) <==> Truthy(a) || Truthy(b)
    ensures Truthy(a) ==> Or(a, b) == a
  {
  }

  /** `v[0]`: the first element of an array, the first character of a string, field "0" of an object. */
  function Index0(v: JsValue): JsValue
  {
    match v
    case Arr(items) => if |items| > 0 then items[0] else Undefined
    case Str(s) => if |s| > 0 then Str([s[0]]) else Undefined
    case _ => Get(v, "0")
  }

  /** `[x, ...rest][0]` is x, `'c...'[0]` is the one-character string, and an object gives its field "0". */
  lemma Index0Reads(x: JsValue, rest: seq<JsValue>, c: char, tail: string, fields: map<string, JsValue>)
    ensures Index0(Arr([x] + rest)) == x
    ensures Index0(Str([c] + tail)) == Str([c])
    ensures Index0(Arr([])) == Undefined && Index0(Str("")) == Undefined
    ensures Index0(Obj(fields)) == Get(Obj(fields), "0")
  {
  }

  /** ToString, as a template literal `${v}` applies it. */
  function ToJsString(v: JsValue): string
  {
    match v
    case Undefined => "undefined"
    case Null => "null"
    case Bool(b) => if b then "true" else "false"
    case Num(n) => IntToString(n)
    case Str(s) => s
    // Array.prototype.toString joins with ',' and renders undefined and null elements as ""
    case Arr(items) =>
      Join(seq(|items|, i requires 0 <= i < |items| =>
                 if items[i].Undefined? || items[i].Null? then "" else ToJsString(items[i])), ',')
    case Obj(_) => "[object Object]"
  }

  /** The text of a number names it: an optional '-' and then digits that read back as its magnitude. */
  lemma NumberTextRoundTrip(n: int)
    ensures var t := ToJsString(Num(n));
            var digits := if n < 0 then t[1..] else t;
            && |t| >= 1 && (t[0] == '-' <==> n < 0)
            && (forall k :: 0 <= k < |digits| ==> IsDigit(digits[k]))
            && ParseNat(digits) == (if n < 0 then -n else n)
  {
  }

  /** Different numbers have different texts. */
  lemma {:induction false} NumberTextInjective(a: int, b: int)
    requires ToJsString(Num(a)) == ToJsString(Num(b))
    ensures a == b
  {
    NumberTextRoundTrip(a);
    NumberTextRoundTrip(b);
  }
}
