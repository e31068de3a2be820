/** String clamping: `clampString` (src/utils/strings.js) and the legacy
    `clampStr` of logistics-server.js. */
module Strings {
  import opened Base
  import opened JsValues

  const DefaultMaxLength: nat := 256

  /** `s.slice(0, n)` */
  function Prefix(s: string, n: nat): (r: string)
    ensures |r| == Min(n, |s|) && r == s[..|r|]
  {
    if |s| <= n then s else s[..n]
  }

  /** `clampString(value, maxLength = 256)`: null and undefined become "",
      anything else is `String(value)` cut to `maxLength` characters. */
  function ClampString(v: JsValue, maxLength: nat := DefaultMaxLength): (r: string)
    ensures Nullish(v) ==> r == ""
    ensures |r| <= maxLength
    ensures !Nullish(v) ==> |r| == Min(maxLength, |ToStr(v)|) && r == ToStr(v)[..|r|]
    ensures !Nullish(v) && |ToStr(v)| <= maxLength ==> r == ToStr(v)
  {
    if Nullish(v) then "" else Prefix(ToStr(v), maxLength)
  }

  /** Clamping a clamped string again to the same bound changes nothing. */
  lemma ClampIdempotent(v: JsValue, n: nat)
    ensures ClampString(Str(ClampString(v, n)), n) == ClampString(v, n)
  {
  }

  /** Two clamps compose to one clamp at the smaller bound. */
  lemma ClampCompose(v: JsValue, a: nat, b: nat)
    ensures ClampString(Str(ClampString(v, a)), b) == ClampString(v, Min(a, b))
  {
  }

  /** `clampStr(s, max = 256)` of logistics-server.js:
      `String(s || '').slice(0, max)`, so every falsy value becomes "". */
  function LegacyClampStr(v: JsValue, maxLength: nat := DefaultMaxLength): (r: string)
    ensures !Truthy(v) ==> r == ""
    ensures Truthy(v) ==> r == ClampString(v, maxLength)
  {
    if Truthy(v) then Prefix(ToStr(v), maxLength) else ""
  }

  /** The two clamps differ on falsy non-nullish values such as 0. */
  lemma ClampsDifferOnZero()
    ensures ClampString(Num(Decimal(0, 0))) == "0"
    ensures LegacyClampStr(Num(Decimal(0, 0))) == ""
  {
  }
}
