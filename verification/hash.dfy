/** The deterministic seed: a djb2-style string hash reduced to 32 bits
    (src/utils/hash.js, and `hashInt` of logistics-server.js). */
module Hash {
  import opened JsValues

  const Modulus: nat := 0x1_0000_0000
  const Seed: nat := 5381

  /** `char.charCodeAt(0)` for one element of `[...s]`.  Spreading a string
      yields code points; for one outside the Basic Multilingual Plane
      `charCodeAt(0)` is its high surrogate. */
  function CodeUnit(c: char): (u: nat)
    ensures u < 0x10000
  {
    if c as int < 0x10000 then c as int else 0xD800 + (c as int - 0x10000) / 0x400
  }

  /** `x >>> 0` for a non-negative integer (ToUint32). */
  function ToUint32(x: nat): (r: nat)
    ensures r < Modulus
  {
    x % Modulus
  }

  /** The `reduce` over the characters: `acc = (acc * 33 + code) >>> 0`
      from 5381. */
  function Fold(s: string): (h: nat)
    ensures h < Modulus
  {
    if |s| == 0 then Seed
    else ToUint32(Fold(s[..|s| - 1]) * 33 + CodeUnit(s[|s| - 1]))
  }

  /** `hashToInt(value)`: `String(value ?? '')` folded, then `>>> 0`. */
  function HashToInt(v: JsValue): (h: nat)
    ensures h < Modulus
    ensures Nullish(v) || v == Str("") ==> h == Seed
  {
    ToUint32(Fold(ToStr(OrElse(v, Str("")))))
  }

  /** The step law: appending one character multiplies by 33, adds its code
      and reduces. */
  lemma HashStep(s: string, c: char)
    ensures Fold(s + [c]) == (Fold(s) * 33 + CodeUnit(c)) % Modulus
  {
    assert (s + [c])[..|s|] == s;
  }

  /** The final `>>> 0` changes nothing on a reduced accumulator. */
  lemma FinalShiftIsNoOp(s: string)
    ensures ToUint32(Fold(s)) == Fold(s)
  {
  }

  /** The hash without any intermediate reduction. */
  function Raw(s: string): nat {
    if |s| == 0 then Seed else Raw(s[..|s| - 1]) * 33 + CodeUnit(s[|s| - 1])
  }

  /** Euclidean division by the modulus is unique. */
  lemma ModUnique(x: int, k: int, t: int)
    requires x == k * Modulus + t && 0 <= t < Modulus
    ensures x % Modulus == t
  {
  }

  lemma ModStep(a: nat, c: nat)
    ensures (a % Modulus * 33 + c) % Modulus == (a * 33 + c) % Modulus
  {
    var q := a / Modulus;
    var r := a % Modulus;
    assert a == q * Modulus + r;
    var y := r * 33 + c;
    assert y == (y / Modulus) * Modulus + y % Modulus;
    assert a * 33 + c == (q * 33 + y / Modulus) * Modulus + y % Modulus;
    ModUnique(a * 33 + c, q * 33 + y / Modulus, y % Modulus);
  }

  /** Reducing at every step equals reducing once at the end: the two
      readings of "truncated to 32 bits" agree. */
  lemma {:induction false} FoldIsRawReduced(s: string)
    ensures Fold(s) == Raw(s) % Modulus
  {
    if |s| > 0 {
      var p := s[..|s| - 1];
      FoldIsRawReduced(p);
      ModStep(Raw(p), CodeUnit(s[|s| - 1]));
    }
  }

  /** The left-to-right loop the `reduce` performs. */
  method HashLoop(s: string) returns (h: nat)
    ensures h == Fold(s) && h == Raw(s) % Modulus
    ensures h < Modulus
  {
    h := Seed;
    var i := 0;
    while i < |s|
      invariant 0 <= i <= |s|
      invariant h == Fold(s[..i])
    {
      assert s[..i + 1][..i] == s[..i];
      h := (h * 33 + CodeUnit(s[i])) % Modulus;
      i := i + 1;
    }
    assert s[..|s|] == s;
    FoldIsRawReduced(s);
  }

  /** `hashInt(s)` of logistics-server.js: the same fold over `String(s)`,
      without the `?? ''` default. */
  function LegacyHashInt(v: JsValue): (h: nat)
    ensures h < Modulus
    ensures !Nullish(v) ==> h == HashToInt(v)
  {
    Fold(ToStr(v))
  }

  /** The legacy hash reads `undefined` as the word "undefined", where the
      current hash reads it as the empty string. */
  lemma UndefinedDiffers()
    ensures HashToInt(Undefined) == Seed
    ensures LegacyHashInt(Undefined) == Fold("undefined")
  {
  }
}
