/** The JSON scalars that the storefront's records carry, and the pieces of
    JavaScript's semantics its code relies on when it reads them:
    truthiness, the value returned by `a || b`, loose equality `==`, and
    `String(v)`. A record is a map from property names to values; a property
    that is absent reads as `undefined`, which the model folds into `Null`
    because every place the source reads such a property treats the two
    alike. Numbers are integers. */
module Js {
  import opened Options
  import opened Text

  datatype Value = Null | Bool(b: bool) | Num(n: int) | Str(s: string)

  type Record = map<string, Value>

  /** `obj[key]`, with an absent key read as `undefined` (here `Null`). */
  function Get(obj: Record, key: string): Value {
    if key in obj then obj[key] else Null
  }

  /** JavaScript truthiness: `null`, `false`, `0` and `''` are falsy. */
  predicate Truthy(v: Value) {
    match v
    case Null => false
    case Bool(b) => b
    case Num(n) => n != 0
    case Str(s) => s != ""
  }

  /** `a || b`: the left operand when it is truthy, the right one otherwise. */
  function Or(a: Value, b: Value): (r: Value)
    ensures Truthy(a) ==> r == a
    ensures !Truthy(a) ==> r == b
    ensures Truthy(r) <==> Truthy(a) || Truthy(b)
  {
    if Truthy(a) then a else b
  }

  /** `Number(s)` for a string, when the result is an integer: white space
      around the text is ignored, the empty text is 0, and otherwise an
      optional sign is followed by decimal digits. `None` stands for `NaN`
      (and for the non-integer numbers that the model leaves out). */
  function ToNumber(s: string): (r: Option<int>)
    ensures AllDigits(Trim(s)) ==> r.Some? && r.value >= 0
    ensures Trim(s) != "" && !IsDigit(Trim(s)[0]) && Trim(s)[0] != '-' && Trim(s)[0] != '+' ==> r == None
  {
    var t := Trim(s);
    if t == "" then Some(0)
    else if (t[0] == '-' || t[0] == '+') && |t| > 1 && AllDigits(t[1..]) then
      assert IsDigit(t[1..][0]);
      Some(if t[0] == '-' then -(DigitsValue(t[1..]) as int) else DigitsValue(t[1..]))
    else if AllDigits(t) then
      Some(DigitsValue(t))
    else None
  }

  /** The number a boolean converts to. */
  function BoolNumber(b: bool): int {
    if b then 1 else 0
  }

  /** Abstract loose equality `a == b` for these values: `null` equals only
      `null`; values of one type compare by value; a number and a string
      compare after the string is converted to a number; a boolean is first
      converted to a number. */
  predicate LooseEq(a: Value, b: Value) {
    match (a, b)
    case (Null, Null) => true
    case (Null, _) => false
    case (_, Null) => false
    case (Bool(x), Bool(y)) => x == y
    case (Num(x), Num(y)) => x == y
    case (Str(x), Str(y)) => x == y
    case (Num(x), Str(y)) => ToNumber(y) == Some(x)
    case (Str(x), Num(y)) => ToNumber(x) == Some(y)
    case (Bool(x), Num(y)) => BoolNumber(x) == y
    case (Num(x), Bool(y)) => x == BoolNumber(y)
    case (Bool(x), Str(y)) => ToNumber(y) == Some(BoolNumber(x))
    case (Str(x), Bool(y)) => ToNumber(x) == Some(BoolNumber(y))
  }

  /** Loose equality is symmetric and reflexive, so the source's `id == x`
      and `x == id` agree. */
  lemma LooseEqSymmetric(a: Value, b: Value)
    ensures LooseEq(a, b) <==> LooseEq(b, a)
    ensures LooseEq(a, a)
  {
  }

  /** `String(v)`. */
  function ToText(v: Value): (r: string)
    ensures v.Str? ==> r == v.s
    ensures v.Num? ==> r == IntToString(v.n)
  {
    match v
    case Null => "null"
    case Bool(b) => if b then "true" else "false"
    case Num(n) => IntToString(n)
    case Str(s) => s
  }

  /** A number loosely equals its own decimal rendering, so an id kept as
      the number 7 matches the string "7" from a button. */
  lemma NumEqualsItsText(n: int)
    ensures LooseEq(Num(n), Str(IntToString(n)))
  {
    if n < 0 {
      NegativeTextValue(-n);
    } else {
      NatTextValue(n);
    }
  }

  /** `Number(String(m))` is `m`. */
  lemma NatTextValue(m: nat)
    ensures ToNumber(NatToString(m)) == Some(m)
  {
    NatToStringValue(m);
    PlainDigits(NatToString(m), m);
  }

  /** Digits of `n` with no sign read as `n`. */
  lemma PlainDigits(d: string, n: nat)
    requires d != "" && AllDigits(d) && DigitsValue(d) == n
    ensures ToNumber(d) == Some(n)
  {
    assert IsDigit(d[0]) && IsDigit(d[|d| - 1]);
    TrimNoSpace(d);
  }

  /** `Number('-' + String(m))` is `-m`. */
  lemma NegativeTextValue(m: nat)
    ensures ToNumber("-" + NatToString(m)) == Some(-(m as int))
  {
    NatToStringValue(m);
    NegatedDigits(NatToString(m), m);
  }

  /** A minus sign followed by the digits of `n` reads as `-n`. */
  lemma NegatedDigits(d: string, n: nat)
    requires d != "" && AllDigits(d) && DigitsValue(d) == n
    ensures ToNumber("-" + d) == Some(-(n as int))
  {
    var t := "-" + d;
    assert t[0] == '-' && t[|t| - 1] == d[|d| - 1] && t[1..] == d;
    TrimNoSpace(t);
  }

  lemma TrimNoSpace(t: string)
    requires t != [] && !IsSpace(t[0]) && !IsSpace(t[|t| - 1])
    ensures Trim(t) == t
  {
  }
}
