/** The slice of JavaScript's value semantics the tool layer relies on: the
    values a tool call's arguments can hold, truthiness, `String(v)`,
    `Number(v)`, `trim`, ASCII case mapping and property lookup. */
module JsValues {
  import opened Base
  import opened OrderedMaps

  /** A JavaScript number.  A finite number is kept exactly as m / 10^e:
      numbers arrive as decimal literals, from the wire or from a string, and
      `Number` takes a literal's range from the double format (see
      `DoubleRange`) but not its rounding to 53 bits. */
  datatype Number = NaN | Infinity(negative: bool) | Decimal(m: int, e: nat)

  datatype JsValue =
    | Undefined
    | Null
    | Bool(b: bool)
    | Num(n: Number)
    | Str(s: string)
    | Arr(items: seq<JsValue>)
    | Obj(fields: seq<(string, JsValue)>)

  function Pow10(e: nat): (r: nat)
    ensures r >= 1
  {
    if e == 0 then 1 else 10 * Pow10(e - 1)
  }

  /** `v === null || v === undefined` */
  predicate Nullish(v: JsValue) {
    v.Undefined? || v.Null?
  }

  /** `v ?? d` */
  function OrElse(v: JsValue, d: JsValue): JsValue {
    if Nullish(v) then d else v
  }

  predicate IsZero(n: Number) {
    n.Decimal? && n.m == 0
  }

  /** JavaScript truthiness: undefined, null, false, 0, NaN and "" are falsy. */
  predicate Truthy(v: JsValue) {
    match v
    case Undefined => false
    case Null => false
    case Bool(b) => b
    case Num(n) => !n.NaN? && !IsZero(n)
    case Str(s) => |s| > 0
    case Arr(_) => true
    case Obj(_) => true
  }

  /** `v.key` on a plain object; every other value has none of the keys the
      tool layer reads. */
  function Prop(v: JsValue, key: string): JsValue {
    match v
    case Obj(fields) => Get(fields, key).GetOr(Undefined)
    case _ => Undefined
  }

  // ---------------------------------------------------------------- digits

  predicate IsDigit(c: char) {
    '0' <= c <= '9'
  }

  predicate AllDigits(s: string) {
    forall i :: 0 <= i < |s| ==> IsDigit(s[i])
  }

  function DigitChar(d: nat): char
    requires d < 10
  {
    ('0' as int + d) as char
  }

  /** The value of a run of decimal digits. */
  function DigitsValue(s: string): nat
    requires AllDigits(s)
  {
    if |s| == 0 then 0
    else 10 * DigitsValue(s[..|s| - 1]) + (s[|s| - 1] as int - '0' as int)
  }

  /** A run of n digits spells a number below 10^n. */
  lemma {:induction false} DigitsBelow(s: string)
    requires AllDigits(s)
    ensures DigitsValue(s) < Pow10(|s|)
    decreases |s|
  {
    if |s| > 0 {
      DigitsBelow(s[..|s| - 1]);
    }
  }

  /** A leading zero does not change the value of a digit run. */
  lemma {:induction false} LeadingZero(s: string)
    requires AllDigits(s)
    ensures AllDigits("0" + s) && DigitsValue("0" + s) == DigitsValue(s)
    decreases |s|
  {
    var t := "0" + s;
    assert AllDigits(t) by {
      forall i | 0 <= i < |t| ensures IsDigit(t[i]) {
        if i > 0 { assert t[i] == s[i - 1]; }
      }
    }
    if |s| > 0 {
      assert t[..|t| - 1] == "0" + s[..|s| - 1];
      assert t[|t| - 1] == s[|s| - 1];
      LeadingZero(s[..|s| - 1]);
    }
  }

  /** Decimal rendering of a natural number, without leading zeros. */
  function NatToDecimal(n: nat): (s: string)
    ensures |s| >= 1 && AllDigits(s)
    ensures |s| > 1 ==> s[0] != '0'
  {
    if n < 10 then [DigitChar(n)]
    else
      var p := NatToDecimal(n / 10);
      p + [DigitChar(n % 10)]
  }

  /** Reading back what NatToDecimal wrote gives the number. */
  lemma {:induction false} NatToDecimalRoundTrip(n: nat)
    ensures DigitsValue(NatToDecimal(n)) == n
  {
    if n >= 10 {
      var s := NatToDecimal(n);
      NatToDecimalRoundTrip(n / 10);
      assert s[..|s| - 1] == NatToDecimal(n / 10);
    }
  }

  /** NatToDecimal writes exactly d digits for 10^(d-1) <= n < 10^d. */
  lemma {:induction false} NatToDecimalLength(n: nat, d: nat)
    requires d >= 1 && (d == 1 || Pow10(d - 1) <= n) && n < Pow10(d)
    ensures |NatToDecimal(n)| == d
  {
    if n >= 10 {
      assert d >= 2;
      NatToDecimalLength(n / 10, d - 1);
    }
  }

  // ---------------------------------------------------------------- Number -> string

  /** Strips trailing zero digits of the fraction. */
  function Normalize(m: int, e: nat): (r: (int, nat))
    decreases e
  {
    if e > 0 && m % 10 == 0 then Normalize(m / 10, e - 1) else (m, e)
  }

  function Abs(m: int): nat {
    if m < 0 then -m else m
  }

  /** Prepends `pad` until `s` is at least `width` long (`padStart`). */
  function PadStart(s: string, width: nat, pad: char): (r: string)
    ensures |r| == if |s| >= width then |s| else width
    ensures r[|r| - |s|..] == s
    ensures forall i :: 0 <= i < |r| - |s| ==> r[i] == pad
  {
    if |s| >= width then s else seq(width - |s|, _ => pad) + s
  }

  /** m / 10^e written out, with e fraction digits. */
  function RenderDecimal(d: (int, nat)): string {
    var (m, e) := d;
    var sign := if m < 0 then "-" else "";
    var digits := PadStart(NatToDecimal(Abs(m)), e + 1, '0');
    if e == 0 then sign + digits
    else sign + digits[..|digits| - e] + "." + digits[|digits| - e..]
  }

  /** `String(n)` for a number in plain (non-exponential) notation. */
  function NumberToString(n: Number): string {
    match n
    case NaN => "NaN"
    case Infinity(neg) => if neg then "-Infinity" else "Infinity"
    case Decimal(m, e) => RenderDecimal(Normalize(m, e))
  }

  // ---------------------------------------------------------------- whitespace and trim

  /** WhiteSpace and LineTerminator of ECMAScript, which `trim` removes. */
  predicate IsSpace(c: char) {
    var u := c as int;
    u == 0x09 || u == 0x0A || u == 0x0B || u == 0x0C || u == 0x0D || u == 0x20
    || u == 0xA0 || u == 0x1680 || (0x2000 <= u <= 0x200A)
    || u == 0x2028 || u == 0x2029 || u == 0x202F || u == 0x205F
    || u == 0x3000 || u == 0xFEFF
  }

  predicate AllSpace(s: string) {
    forall i :: 0 <= i < |s| ==> IsSpace(s[i])
  }

  function TrimStart(s: string): (r: string)
    ensures |r| <= |s| && r == s[|s| - |r|..]
    ensures AllSpace(s[..|s| - |r|])
    ensures |r| > 0 ==> !IsSpace(r[0])
  {
    if |s| > 0 && IsSpace(s[0]) then TrimStart(s[1..]) else s
  }

  function TrimEnd(s: string): (r: string)
    ensures |r| <= |s| && r == s[..|r|]
    ensures AllSpace(s[|r|..])
    ensures |r| > 0 ==> !IsSpace(r[|r| - 1])
  {
    if |s| > 0 && IsSpace(s[|s| - 1]) then TrimEnd(s[..|s| - 1]) else s
  }

  /** `String.prototype.trim` */
  function Trim(s: string): string {
    TrimEnd(TrimStart(s))
  }

  /** Trim keeps a contiguous middle part and cuts only whitespace around it. */
  lemma TrimSpec(s: string)
    ensures exists a, b :: 0 <= a <= b <= |s| && Trim(s) == s[a..b]
                           && AllSpace(s[..a]) && AllSpace(s[b..])
    ensures |Trim(s)| > 0 ==> !IsSpace(Trim(s)[0]) && !IsSpace(Trim(s)[|Trim(s)| - 1])
  {
    var t := TrimStart(s);
    var a := |s| - |t|;
    var r := TrimEnd(t);
    var b := a + |r|;
    assert r == s[a..b];
    assert s[b..] == t[|r|..];
  }

  /** A string that starts with a non-space character loses nothing at the front. */
  lemma TrimStartKeeps(s: string)
    requires |s| > 0 && !IsSpace(s[0])
    ensures TrimStart(s) == s
  {
  }

  /** A string with visible characters at both ends is its own trim. */
  lemma TrimVisible(s: string)
    requires |s| > 0 && !IsSpace(s[0]) && !IsSpace(s[|s| - 1])
    ensures Trim(s) == s
  {
    TrimStartKeeps(s);
  }

  /** Trailing whitespace is cut only from what follows a non-space character. */
  lemma {:induction false} TrimEndAfter(a: string, b: string)
    requires |a| > 0 && !IsSpace(a[|a| - 1])
    ensures TrimEnd(a + b) == a + TrimEnd(b)
    decreases |b|
  {
    if |b| == 0 {
      assert a + b == a;
    } else {
      var s := a + b;
      assert s[|s| - 1] == b[|b| - 1];
      if IsSpace(b[|b| - 1]) {
        assert s[..|s| - 1] == a + b[..|b| - 1];
        TrimEndAfter(a, b[..|b| - 1]);
      }
    }
  }

  // ---------------------------------------------------------------- case mapping

  function ToUpperChar(c: char): char {
    if 'a' <= c <= 'z' then (c as int - 32) as char else c
  }

  function ToLowerChar(c: char): char {
    if 'A' <= c <= 'Z' then (c as int + 32) as char else c
  }

  /** `toUpperCase`, on the ASCII letters. */
  function Upper(s: string): (r: string)
    ensures |r| == |s|
    ensures forall i :: 0 <= i < |s| ==> r[i] == ToUpperChar(s[i])
  {
    seq(|s|, i requires 0 <= i < |s| => ToUpperChar(s[i]))
  }

  /** `toLowerCase`, on the ASCII letters. */
  function Lower(s: string): (r: string)
    ensures |r| == |s|
    ensures forall i :: 0 <= i < |s| ==> r[i] == ToLowerChar(s[i])
  {
    seq(|s|, i requires 0 <= i < |s| => ToLowerChar(s[i]))
  }

  /** Upper-casing twice changes nothing more. */
  lemma UpperIdempotent(s: string)
    ensures Upper(Upper(s)) == Upper(s)
  {
  }

  // ---------------------------------------------------------------- String(v)

  /** Joins with a separator (`Array.prototype.join`). */
  function Join(parts: seq<string>, sep: string): string {
    if |parts| == 0 then ""
    else if |parts| == 1 then parts[0]
    else Join(parts[..|parts| - 1], sep) + sep + parts[|parts| - 1]
  }

  lemma {:induction false} JoinCons(a: string, rest: seq<string>, sep: string)
    requires |rest| >= 1
    ensures Join([a] + rest, sep) == a + sep + Join(rest, sep)
    decreases |rest|
  {
    var all := [a] + rest;
    if |rest| > 1 {
      assert all[..|all| - 1] == [a] + rest[..|rest| - 1];
      JoinCons(a, rest[..|rest| - 1], sep);
    }
  }

  /** `s.split(c)` for a one-character separator. */
  function Split(s: string, c: char): (parts: seq<string>)
    ensures |parts| >= 1
    ensures forall i, j :: 0 <= i < |parts| && 0 <= j < |parts[i]| ==> parts[i][j] != c
    decreases |s|
  {
    match IndexOfChar(s, c)
    case None => [s]
    case Some(k) => [s[..k]] + Split(s[k + 1..], c)
  }

  /** Splitting and joining again with the separator gives back the string. */
  lemma {:induction false} SplitJoin(s: string, c: char)
    ensures Join(Split(s, c), [c]) == s
    decreases |s|
  {
    match IndexOfChar(s, c)
    case None =>
    case Some(k) =>
      var pre, post := s[..k], s[k + 1..];
      var rest := Split(post, c);
      assert Split(s, c) == [pre] + rest;
      assert Join([pre] + rest, [c]) == pre + [c] + Join(rest, [c]) by {
        JoinCons(pre, rest, [c]);
      }
      assert Join(rest, [c]) == post by {
        SplitJoin(post, c);
      }
      assert s == pre + [c] + post by {
        assert s[k] == c;
      }
  }

  /** `String(v)`: arrays join their elements with commas, rendering null and
      undefined elements as empty. */
  function ToStr(v: JsValue): string
    decreases v
  {
    match v
    case Undefined => "undefined"
    case Null => "null"
    case Bool(b) => if b then "true" else "false"
    case Num(n) => NumberToString(n)
    case Str(s) => s
    case Arr(items) =>
      Join(seq(|items|, i requires 0 <= i < |items| =>
                 if Nullish(items[i]) then "" else ToStr(items[i])), ",")
    case Obj(_) => "[object Object]"
  }

  // ---------------------------------------------------------------- Number(v)

  /** Splits an optional leading sign. */
  function SplitSign(t: string): (bool, string) {
    if |t| > 0 && t[0] == '-' then (true, t[1..])
    else if |t| > 0 && t[0] == '+' then (false, t[1..])
    else (false, t)
  }

  function IndexOfChar(s: string, c: char): (r: Option<nat>)
    ensures r.Some? ==> r.value < |s| && s[r.value] == c
                        && forall j :: 0 <= j < r.value ==> s[j] != c
    ensures r.None? ==> forall j :: 0 <= j < |s| ==> s[j] != c
  {
    if |s| == 0 then None
    else if s[0] == c then Some(0)
    else match IndexOfChar(s[1..], c)
      case None => None
      case Some(k) => Some(k + 1)
  }

  /** A decimal literal `[+-] digits [. digits]` or `[+-] . digits`. */
  function ParseDecimal(t: string): (r: Option<Number>)
    ensures r.Some? ==> r.value.Decimal?
  {
    var (neg, body) := SplitSign(t);
    var (whole, frac) :=
      match IndexOfChar(body, '.')
      case None => (body, "")
      case Some(k) => (body[..k], body[k + 1..]);
    if AllDigits(whole) && AllDigits(frac) && |whole| + |frac| >= 1 then
      assert AllDigits(whole + frac);
      var m: int := DigitsValue(whole + frac);
      Some(Decimal(if neg then -m else m, |frac|))
    else None
  }

  /** 2^1024 - 2^970: half a unit in the last place past the largest finite
      double.  A literal of at least this magnitude rounds to an infinity
      (the tie goes to the even significand, which is the overflow). */
  const OverflowBound: nat :=
    179769313486231580793728971405303415079934132710037826936173778980444968292764750946649017977587207096330286416692887910946555547851940402630657488671505820681908902000708383676273854845817711531764475730270069855571366959622842914819860834936475292719074168444365510704342711559699508093042880177904174497792

  /** 2^1075: a non-zero literal of magnitude at most 1 / 2^1075, half the
      least subnormal double, rounds to zero (the tie goes to the even
      significand, which is zero). */
  const UnderflowScale: nat :=
    404804506614621236704990693437834614099113299528284236713802716054860679135990693783920767402874248990374155728633623822779617474771586953734026799881477019843034848553132722728933815484186432682479535356945490137124014966849385397236206711298319112681620113024717539104666829230461005064372655017292012526615415482186989568

  /** A decimal literal m / 10^e read as a double, as far as the range of the
      format goes: too large is an infinity of the literal's sign, too small
      is zero, and otherwise the exact value is kept. */
  function DoubleRange(m: int, e: nat): (n: Number)
    ensures n.Infinity? <==> Abs(m) >= OverflowBound * Pow10(e)
    ensures n.Infinity? ==> (n.negative <==> m < 0)
    ensures n.Decimal? && n.m == 0 <==> m == 0 || Abs(m) * UnderflowScale <= Pow10(e)
    ensures n.Decimal? && n.m != 0 ==> n == Decimal(m, e)
    ensures !n.NaN?
  {
    if Abs(m) >= OverflowBound * Pow10(e) then Infinity(m < 0)
    else if Abs(m) * UnderflowScale <= Pow10(e) then Decimal(0, 0)
    else Decimal(m, e)
  }

  /** `Number(s)` for a string: surrounding whitespace is ignored, the empty
      string is 0, and a decimal literal is read within the double range. */
  function StringToNumber(s: string): Number {
    var t := Trim(s);
    if t == "" then Decimal(0, 0)
    else if t == "Infinity" || t == "+Infinity" then Infinity(false)
    else if t == "-Infinity" then Infinity(true)
    else match ParseDecimal(t)
      case None => NaN
      case Some(d) => DoubleRange(d.m, d.e)
  }

  /** Every finite number `Number` reads from a string lies in the double
      range: below the overflow bound, and zero or above the underflow
      bound. */
  lemma StringToNumberInRange(s: string)
    ensures var n := StringToNumber(s);
            && (n.Decimal? ==> Abs(n.m) < OverflowBound * Pow10(n.e))
            && (n.Decimal? && n.m != 0 ==> Abs(n.m) * UnderflowScale > Pow10(n.e))
  {
  }

  /** `Number(v)` */
  function ToNumber(v: JsValue): Number {
    match v
    case Undefined => NaN
    case Null => Decimal(0, 0)
    case Bool(b) => Decimal(if b then 1 else 0, 0)
    case Num(n) => n
    case Str(s) => StringToNumber(s)
    case _ => StringToNumber(ToStr(v))
  }

  /** Text that trims to "Infinity" converts to positive infinity. */
  lemma InfinityWord(s: string)
    requires Trim(s) == "Infinity"
    ensures StringToNumber(s) == Infinity(false)
  {
  }

  /** A string converts by its text alone. */
  lemma StrToNumber(s: string)
    ensures ToNumber(Str(s)) == StringToNumber(s)
  {
  }

  /** `Number.isFinite(n) && n > 0` */
  predicate FinitePositive(n: Number) {
    n.Decimal? && n.m > 0
  }

  lemma ParseDigits(s: string)
    requires |s| >= 1 && AllDigits(s)
    ensures ParseDecimal(s) == Some(Decimal(DigitsValue(s), 0))
  {
    assert SplitSign(s) == (false, s) by {
      assert IsDigit(s[0]);
    }
    assert IndexOfChar(s, '.') == None by {
      assert forall j :: 0 <= j < |s| ==> IsDigit(s[j]);
    }
    assert s + "" == s;
  }

  /** A string of digits converts to the integer it spells, unless that
      integer is beyond the largest double, when it is Infinity. */
  lemma DigitsToNumber(s: string)
    requires |s| >= 1 && AllDigits(s)
    ensures StringToNumber(s) == DoubleRange(DigitsValue(s), 0)
    ensures StringToNumber(s) == Infinity(false) <==> DigitsValue(s) >= OverflowBound
    ensures DigitsValue(s) < OverflowBound ==> StringToNumber(s) == Decimal(DigitsValue(s), 0)
  {
    assert IsDigit(s[0]) && IsDigit(s[|s| - 1]);
    TrimVisible(s);
    assert s != "Infinity" && s != "+Infinity" && s != "-Infinity" by {
      assert IsDigit(s[0]);
    }
    ParseDigits(s);
  }

  /** A decimal literal reads back to the integer its digits spell, up to
      the overflow bound. */
  lemma IntegerLiteral(n: nat)
    ensures n < OverflowBound ==> StringToNumber(NatToDecimal(n)) == Decimal(n, 0)
    ensures n >= OverflowBound ==> StringToNumber(NatToDecimal(n)) == Infinity(false)
  {
    NatToDecimalRoundTrip(n);
    DigitsToNumber(NatToDecimal(n));
  }

  /** A fraction `0.f` reads as f / 10^|f| within the double range. */
  lemma FractionLiteral(f: string)
    requires |f| >= 1 && AllDigits(f)
    ensures StringToNumber("0." + f) == DoubleRange(DigitsValue(f), |f|)
  {
    FractionText(f);
    ReadDecimal("0." + f, DigitsValue(f), |f|);
  }

  /** The text `0.f` is a trimmed decimal literal with whole part 0 and
      fraction f. */
  lemma FractionText(f: string)
    requires |f| >= 1 && AllDigits(f)
    ensures var t := "0." + f;
            && Trim(t) == t && t != "" && IsDigit(t[0])
            && ParseDecimal(t) == Some(Decimal(DigitsValue(f), |f|))
  {
    FractionTrimmed(f);
    FractionParsed(f);
  }

  /** A trimmed text that starts with a digit and parses as a decimal
      literal is read within the double range. */
  lemma ReadDecimal(t: string, m: int, e: nat)
    requires Trim(t) == t && t != "" && IsDigit(t[0])
    requires ParseDecimal(t) == Some(Decimal(m, e))
    ensures StringToNumber(t) == DoubleRange(m, e)
  {
  }

  /** The text `0.f` has nothing to trim. */
  lemma FractionTrimmed(f: string)
    requires |f| >= 1 && AllDigits(f)
    ensures Trim("0." + f) == "0." + f
  {
    var t := "0." + f;
    assert t[|f| + 1] == f[|f| - 1];
    assert IsDigit(f[|f| - 1]);
    TrimVisible(t);
  }

  /** The text `0.f` is a decimal literal with whole part 0 and fraction f. */
  lemma FractionParsed(f: string)
    requires |f| >= 1 && AllDigits(f)
    ensures ParseDecimal("0." + f) == Some(Decimal(DigitsValue(f), |f|))
  {
    var t := "0." + f;
    assert SplitSign(t) == (false, t);
    assert IndexOfChar(t, '.') == Some(1) by {
      assert t[1] == '.' && t[0] != '.';
    }
    assert t[..1] == "0" && t[2..] == f;
    LeadingZero(f);
  }
}
