/** JavaScript values as the dashboard's untyped objects hold them, with the
    language rules the source leans on: truthiness and `||`, property access
    on a possibly-missing key, `parseFloat`, `Number(...)` and `<= 0`. */
module JsValues {
  import opened Options
  import opened Strings

  datatype JsVal =
    | Undefined
    | Null
    | Bool(b: bool)
    | Num(n: real)
    | NaN
    | Str(s: string)
    | Arr(items: seq<JsVal>)
    | Obj(fields: map<string, JsVal>)

  /** `o[k]` on a plain object: a missing key reads as `undefined`. */
  function Prop(o: map<string, JsVal>, k: string): JsVal
  {
    if k in o then o[k] else Undefined
  }

  /** JavaScript truthiness: `false`, `0`, `NaN`, `""`, `null` and
      `undefined` are falsy, everything else is truthy. */
  predicate Truthy(v: JsVal)
  {
    match v
    case Undefined => false
    case Null => false
    case Bool(b) => b
    case Num(n) => n != 0.0
    case NaN => false
    case Str(s) => s != ""
    case Arr(_) => true
    case Obj(_) => true
  }

  /** `a || b`: the first operand when it is truthy, otherwise the second. */
  function Or(a: JsVal, b: JsVal): (r: JsVal)
    ensures Truthy(r) <==> Truthy(a) || Truthy(b)
    ensures r == a || r == b
  {
    if Truthy(a) then a else b
  }

  /** `v === undefined || v === null`. */
  predicate Nullish(v: JsVal)
  {
    v.Undefined? || v.Null?
  }

  predicate IsDigit(c: char)
  {
    '0' <= c <= '9'
  }

  /** Number of leading decimal digits. */
  function LeadingDigits(s: string): (k: nat)
    ensures k <= |s|
    ensures forall i :: 0 <= i < k ==> IsDigit(s[i])
    ensures k < |s| ==> !IsDigit(s[k])
  {
    if |s| > 0 && IsDigit(s[0]) then 1 + LeadingDigits(s[1..]) else 0
  }

  function Pow10(n: nat): (r: nat)
    ensures r >= 1
  {
    if n == 0 then 1 else 10 * Pow10(n - 1)
  }

  /** Value of a string of decimal digits. */
  function DigitsValue(ds: string): nat
    requires forall i :: 0 <= i < |ds| ==> IsDigit(ds[i])
  {
    if |ds| == 0 then 0
    else
      assert IsDigit(ds[|ds| - 1]);
      10 * DigitsValue(ds[..|ds| - 1]) + (ds[|ds| - 1] as int - '0' as int)
  }

  /** The longest unsigned decimal literal at the start of `u` (digits,
      optional fraction), as its value and the number of characters it
      spans; `None` when there is no digit. */
  function ScanUnsigned(u: string): (r: Option<(real, nat)>)
    ensures r.Some? ==> 0 < r.value.1 <= |u|
  {
    var k := LeadingDigits(u);
    var rest := u[k..];
    var dot := |rest| > 0 && rest[0] == '.';
    var f := if dot then LeadingDigits(rest[1..]) else 0;
    if k + f == 0 then None
    else
      var frac := if dot then DigitsValue(rest[1..][..f]) else 0;
      Some((DigitsValue(u[..k]) as real + frac as real / Pow10(f) as real, k + if dot then 1 + f else 0))
  }

  /** The longest decimal literal at the start of `t`: an optional sign,
      then an unsigned literal. */
  function ScanDecimal(t: string): (r: Option<(real, nat)>)
    ensures r.Some? ==> 0 < r.value.1 <= |t|
  {
    var signed := |t| > 0 && (t[0] == '-' || t[0] == '+');
    match ScanUnsigned(if signed then t[1..] else t)
    case None => None
    case Some((v, len)) =>
      Some((if signed && t[0] == '-' then -v else v, len + if signed then 1 else 0))
  }

  /** `parseFloat(s)`: leading whitespace is skipped and the longest decimal
      prefix is read; without one the result is `NaN`. */
  function ParseFloat(s: string): (r: JsVal)
    ensures r.Num? || r.NaN?
  {
    if |s| > 0 && IsSpace(s[0]) then ParseFloat(s[1..])
    else match ScanDecimal(s)
      case None => NaN
      case Some((v, _)) => Num(v)
  }

  /** `parseFloat` reads what is left once leading whitespace is trimmed. */
  lemma {:induction false} ParseFloatTrimmed(s: string)
    ensures ParseFloat(s) == ParseFloat(TrimStart(s))
    ensures var t := TrimStart(s);
      ParseFloat(s) == match ScanDecimal(t) case None => NaN case Some((v, _)) => Num(v)
  {
    if |s| > 0 && IsSpace(s[0]) {
      ParseFloatTrimmed(s[1..]);
    }
  }

  /** `Number(s)`: the whole trimmed string must be a decimal literal; the
      empty string is 0. */
  function StringToNumber(s: string): (r: JsVal)
    ensures r.Num? || r.NaN?
  {
    var t := Trim(s);
    if t == "" then Num(0.0)
    else match ScanDecimal(t)
      case Some((v, len)) => if len == |t| then Num(v) else NaN
      case None => NaN
  }

  /** `Number(v)`, as used by relational comparisons. Arrays and objects are
      read as `NaN`. */
  function ToNumber(v: JsVal): (r: JsVal)
    ensures r.Num? || r.NaN?
  {
    match v
    case Undefined => NaN
    case Null => Num(0.0)
    case Bool(b) => Num(if b then 1.0 else 0.0)
    case Num(_) => v
    case NaN => NaN
    case Str(s) => StringToNumber(s)
    case Arr(_) => NaN
    case Obj(_) => NaN
  }

  /** `v <= 0`: false whenever `v` converts to `NaN`. */
  predicate LeqZero(v: JsVal)
  {
    var n := ToNumber(v);
    n.Num? && n.n <= 0.0
  }

  lemma {:induction false} DigitsValueOfNat(n: nat)
    ensures forall i :: 0 <= i < |NatToString(n)| ==> IsDigit(NatToString(n)[i])
    ensures DigitsValue(NatToString(n)) == n
  {
    var s := NatToString(n);
    if n >= 10 {
      DigitsValueOfNat(n / 10);
      assert s[..|s| - 1] == NatToString(n / 10);
    }
  }

  /** A non-empty run of digits scans as its own value, in full. */
  lemma ScanDigits(s: string)
    requires |s| > 0 && forall i :: 0 <= i < |s| ==> IsDigit(s[i])
    ensures ScanDecimal(s) == Some((DigitsValue(s) as real, |s|))
  {
    assert !(s[0] == '-' || s[0] == '+');
    assert LeadingDigits(s) == |s|;
    assert s[..|s|] == s;
  }

  /** Decimal renderings of natural numbers parse back to the number:
      `parseFloat(String(n)) === n`. */
  lemma ParseFloatOfNat(n: nat)
    ensures ParseFloat(NatToString(n)) == Num(n as real)
  {
    var s := NatToString(n);
    DigitsValueOfNat(n);
    assert !IsSpace(s[0]);
    ScanDigits(s);
  }

  /** No decimal literal starts with a letter. */
  lemma ScanLetter(t: string)
    requires |t| > 0 && 'a' <= t[0] <= 'z'
    ensures ScanDecimal(t).None?
  {
    assert LeadingDigits(t) == 0;
  }

  /** Text that starts with a letter is not a number: `parseFloat` and
      `Number` both give `NaN`. */
  lemma WordIsNaN(s: string)
    requires |s| > 0 && 'a' <= s[0] <= 'z'
    ensures ParseFloat(s) == NaN
    ensures StringToNumber(s) == NaN
  {
    assert !IsSpace(s[0]);
    ScanLetter(s);
    var t := Trim(s);
    assert |t| > 0 && t[0] == s[0];
    ScanLetter(t);
  }
}
