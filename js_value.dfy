/** The slice of JavaScript's value semantics that the search handler relies on:
    the values a parsed JSON request body can hold, ToBoolean ("truthiness"),
    and `Object.entries`, which throws on `undefined` and `null`. */
module JsValue {

  /** A value read from the request body. `Undefined` stands for a property the
      body does not have; the other cases are what a JSON parser produces.
      `Obj` lists an object's own properties in the order `Object.entries`
      enumerates them. */
  datatype Value =
    | Undefined
    | Null
    | Bool(b: bool)
    | Num(n: real)
    | Str(s: string)
    | Arr(items: seq<Value>)
    | Obj(props: seq<(string, Value)>)

  /** The one exception the modelled code can raise: converting `undefined`
      or `null` to an object. */
  datatype TypeError = CannotConvertUndefinedOrNullToObject

  /** The outcome of evaluating an expression that may throw. */
  datatype Completion<T> = Normal(value: T) | Throw(error: TypeError)

  /** ToBoolean. The falsy values are undefined, null, false, 0, -0 and the
      empty string (NaN is not a JSON number); every object and array,
      even an empty one, is truthy. */
  predicate Truthy(v: Value)
    ensures !Truthy(v) <==>
              v == Undefined || v == Null || v == Bool(false) || v == Num(0.0) || v == Str("")
  {
    match v
    case Undefined => false
    case Null => false
    case Bool(b) => b
    case Num(n) => n != 0.0
    case Str(s) => s != ""
    case Arr(_) => true
    case Obj(_) => true
  }

  predicate IsDigit(c: char) {
    '0' <= c <= '9'
  }

  predicate AllDigits(s: string) {
    forall i :: 0 <= i < |s| ==> IsDigit(s[i])
  }

  function DigitChar(d: nat): (c: char)
    requires d < 10
    ensures IsDigit(c)
  {
    ('0' as int + d) as char
  }

  function DigitValue(c: char): (d: nat)
    requires IsDigit(c)
    ensures d < 10 && DigitChar(d) == c
  {
    c as int - '0' as int
  }

  /** The canonical decimal numeral of `n`, which is how JavaScript names the
      index keys of strings and arrays. */
  function Decimal(n: nat): (s: string)
    ensures 1 <= |s|
    ensures AllDigits(s)
    ensures s[0] == '0' <==> n == 0
    ensures n == 0 ==> s == "0"
  {
    if n < 10 then [DigitChar(n)] else Decimal(n / 10) + [DigitChar(n % 10)]
  }

  /** The value a string of decimal digits denotes: the inverse of `Decimal`. */
  function DecimalValue(s: string): nat
    requires AllDigits(s)
  {
    if s == [] then 0 else DecimalValue(s[..|s| - 1]) * 10 + DigitValue(s[|s| - 1])
  }

  lemma {:induction false} DecimalRoundTrip(n: nat)
    ensures DecimalValue(Decimal(n)) == n
  {
    if n >= 10 {
      var s := Decimal(n);
      assert s[..|s| - 1] == Decimal(n / 10);
      DecimalRoundTrip(n / 10);
    }
  }

  /** Distinct indices get distinct keys. */
  lemma DecimalInjective(a: nat, b: nat)
    requires Decimal(a) == Decimal(b)
    ensures a == b
  {
    DecimalRoundTrip(a);
    DecimalRoundTrip(b);
  }

  /** No two entries share a key. */
  predicate KeysDistinct(entries: seq<(string, Value)>) {
    forall i, j :: 0 <= i < j < |entries| ==> entries[i].0 != entries[j].0
  }

  /** An object lists each of its keys once, as a JavaScript object does;
      other values have no constraint. */
  predicate WellFormedObject(v: Value) {
    v.Obj? ==> KeysDistinct(v.props)
  }

  /** `Object.entries(v)`: the [key, value] pairs of v's own enumerable
      string-keyed properties. A string yields one entry per character, an
      array one per element, both under their index; a boolean or a number
      has none; `undefined` and `null` throw. */
  function Entries(v: Value): (r: Completion<seq<(string, Value)>>)
    ensures r.Throw? <==> v == Undefined || v == Null
    ensures v.Str? && r.Normal? ==> |r.value| == |v.s|
    ensures v.Arr? && r.Normal? ==> |r.value| == |v.items|
    ensures (v.Bool? || v.Num?) && r.Normal? ==> r.value == []
  {
    match v
    case Undefined => Throw(CannotConvertUndefinedOrNullToObject)
    case Null => Throw(CannotConvertUndefinedOrNullToObject)
    case Bool(_) => Normal([])
    case Num(_) => Normal([])
    case Str(s) => Normal(seq(|s|, i requires 0 <= i < |s| => (Decimal(i), Str([s[i]]))))
    case Arr(xs) => Normal(seq(|xs|, i requires 0 <= i < |xs| => (Decimal(i), xs[i])))
    case Obj(props) => Normal(props)
  }

  /** Whatever the value, the entries `Object.entries` gives back name each key once. */
  lemma EntriesKeysDistinct(v: Value)
    requires WellFormedObject(v)
    requires Entries(v).Normal?
    ensures KeysDistinct(Entries(v).value)
  {
    var es := Entries(v).value;
    if v.Str? || v.Arr? {
      forall i, j | 0 <= i < j < |es| ensures es[i].0 != es[j].0 {
        if es[i].0 == es[j].0 {
          assert es[i].0 == Decimal(i) && es[j].0 == Decimal(j);
          DecimalInjective(i, j);
        }
      }
    }
  }
}
