/** The random primitives of the generator: `getRandomInt`, random strings,
    random formulas and the outline-argument perturbation. `Math.random()` is
    the oracle `RandomReal`, which may return any real in [0, 1); nothing is
    assumed about how the draws are distributed. */
module Random {
  import opened JsText

  const NumberSet := "0123456789"
  const LetterSet := "abcdefghijklmnopqrstuvwxyzABCDEFGHIJKLMNOPQRSTUVWXYZ"
  const MixSet := NumberSet + LetterSet
  const OperatorSet := "+-x"

  predicate IsAsciiLetter(c: char)
  {
    'a' <= c <= 'z' || 'A' <= c <= 'Z'
  }

  /** The digit set holds all ten decimal digits in ten characters, the
      letter set is 52 characters long, and the mixed set is the two in that
      order. */
  lemma CharacterSets()
    ensures forall c :: IsDigit(c) ==> c in NumberSet
    ensures |NumberSet| == 10 && |LetterSet| == 52
    ensures MixSet[..10] == NumberSet && MixSet[10..] == LetterSet
  {
    forall c | IsDigit(c) ensures c in NumberSet {
      assert NumberSet[c as int - '0' as int] == c;
    }
  }

  /** `Math.random()`. */
  method RandomReal() returns (u: real)
    ensures 0.0 <= u < 1.0
  {
    u :| 0.0 <= u < 1.0;
  }

  /** What `getRandomInt(min, max)` returns when `Math.random()` gave `u`. */
  function RandomIntOf(u: real, min: real, max: real): real
  {
    Times(u, max - min + 1.0).Floor as real + min
  }

  /** `v` is a value `getRandomInt(min, max)` can return. */
  ghost predicate Drawable(v: real, min: real, max: real)
  {
    exists u :: 0.0 <= u < 1.0 && v == RandomIntOf(u, min, max)
  }

  lemma FloorShifted(p: real, k: real, min: real, v: real)
    requires 0.0 <= p < k && v == p.Floor as real + min
    ensures 0.0 <= v - min < k && IsInteger(v - min)
  {
    assert p.Floor as real <= p < p.Floor as real + 1.0;
    assert v - min == p.Floor as real;
  }

  lemma TimesBelow(u: real, k: real)
    requires 0.0 <= u < 1.0 && k > 0.0
    ensures 0.0 <= Times(u, k) < k
  {
    assert k - u * k == (1.0 - u) * k;
    assert (1.0 - u) * k > 0.0;
  }

  /** The values `getRandomInt(min, max)` can return, described without the
      draw: `min` plus a non-negative integer below the range `max - min + 1`. */
  predicate InDrawRange(v: real, min: real, max: real)
  {
    0.0 <= v - min < max - min + 1.0 && IsInteger(v - min)
  }

  /** Whatever the bounds, as long as the range `max - min + 1` is positive,
      `getRandomInt` returns `min` plus a non-negative integer below that
      range. Several callers pass fractional bounds. */
  lemma {:induction false} DrawableRange(v: real, min: real, max: real)
    requires Drawable(v, min, max) && max - min + 1.0 > 0.0
    ensures InDrawRange(v, min, max)
  {
    var u :| 0.0 <= u < 1.0 && v == RandomIntOf(u, min, max);
    var k := max - min + 1.0;
    TimesBelow(u, k);
    FloorShifted(Times(u, k), k, min, v);
  }

  /** Conversely every such value is drawn by some `Math.random()` result,
      so the range describes the draws exactly. */
  lemma {:induction false} DrawableIff(v: real, min: real, max: real)
    requires max - min + 1.0 > 0.0
    ensures Drawable(v, min, max) <==> InDrawRange(v, min, max)
  {
    if InDrawRange(v, min, max) {
      var k := max - min + 1.0;
      var u := (v - min) / k;
      assert Times(u, k) == v - min;
      assert v == RandomIntOf(u, min, max);
    }
    if Drawable(v, min, max) {
      DrawableRange(v, min, max);
    }
  }

  lemma IntegerReal(f: int)
    ensures IsInteger(f as real)
  {
  }

  /** With integer bounds `min <= max`, `getRandomInt` returns an integer
      of [min, max]. */
  lemma {:induction false} DrawableIntRange(v: real, min: int, max: int)
    requires min <= max && Drawable(v, min as real, max as real)
    ensures IsInteger(v) && min as real <= v <= max as real
  {
    DrawableRange(v, min as real, max as real);
    IntegerBelow(v - min as real, max - min);
    IntegerPlus(v - min as real, min);
  }

  lemma IntegerBelow(d: real, n: int)
    requires IsInteger(d) && d < n as real + 1.0
    ensures d <= n as real
  {
    var f := d.Floor;
    assert f as real == d;
    assert f < n + 1;
  }

  lemma IntegerPlus(d: real, m: int)
    requires IsInteger(d)
    ensures IsInteger(d + m as real)
  {
    var f := d.Floor;
    assert d + m as real == (f + m) as real;
    IntegerReal(f + m);
  }

  /** `getRandomInt(min, max)`. */
  method GetRandomInt(min: real, max: real) returns (v: real)
    ensures Drawable(v, min, max)
    ensures max - min + 1.0 > 0.0 ==> InDrawRange(v, min, max)
  {
    var u := RandomReal();
    v := RandomIntOf(u, min, max);
    if max - min + 1.0 > 0.0 {
      DrawableRange(v, min, max);
    }
  }

  /** `getRandomInt(min, max)` at integer bounds, read back as an integer. */
  method RandomIntBetween(min: int, max: int) returns (n: int)
    requires min <= max
    ensures min <= n <= max
  {
    var v := GetRandomInt(min as real, max as real);
    DrawableIntRange(v, min, max);
    n := v.Floor;
  }

  /** `generateRandomString(length, chars)`: `length` characters drawn from
      `chars` (`charAt` of an empty string yields "", so nothing is drawn from
      an empty set). */
  method GenerateRandomString(length: nat, chars: string) returns (s: string)
    ensures |chars| > 0 ==> |s| == length
    ensures forall i :: 0 <= i < |s| ==> s[i] in chars
    ensures |chars| == 0 ==> s == ""
  {
    s := "";
    var i := 0;
    while i < length
      invariant 0 <= i <= length
      invariant |chars| > 0 ==> |s| == i
      invariant |chars| == 0 ==> s == ""
      invariant forall k :: 0 <= k < |s| ==> s[k] in chars
    {
      if |chars| > 0 {
        var k := RandomIntBetween(0, |chars| - 1);
        s := s + [chars[k]];
      }
      i := i + 1;
    }
  }

  predicate IsOperand(c: char)
  {
    '1' <= c <= '9'
  }

  /** The shape of a generated formula with `n` operands: single digits 1-9
      at even positions, an operator of `+-x` at odd ones, `2n - 1`
      characters, nothing at all for `n = 0`. */
  predicate FormulaShape(f: string, n: nat)
  {
    && |f| == (if n == 0 then 0 else 2 * n - 1)
    && forall i :: 0 <= i < |f| ==> if i % 2 == 0 then IsOperand(f[i]) else f[i] in OperatorSet
  }

  /** A formula of that shape never starts or ends with an operator. */
  lemma {:induction false} FormulaEnds(f: string, n: nat)
    requires FormulaShape(f, n) && n > 0
    ensures IsOperand(f[0]) && IsOperand(f[|f| - 1])
    ensures f != "-1"
  {
    assert (|f| - 1) % 2 == 0;
  }

  /** `generateRandomFormula(length)`. */
  method GenerateRandomFormula(length: nat) returns (f: string)
    ensures FormulaShape(f, length)
  {
    f := "";
    for i := 0 to length
      invariant |f| == (if i == length && length > 0 then 2 * i - 1 else 2 * i)
      invariant forall k :: 0 <= k < |f| ==> if k % 2 == 0 then IsOperand(f[k]) else f[k] in OperatorSet
    {
      var d := RandomIntBetween(1, 9);
      f := f + [DigitChar(d)];
      if i < length - 1 {
        var k := RandomIntBetween(0, |OperatorSet| - 1);
        f := f + [OperatorSet[k]];
      }
    }
  }

  /** Each output argument lies within 0.1 of its input (upper end open). */
  predicate Perturbed(args: seq<real>, out: seq<real>)
  {
    |out| == |args| && forall k :: 0 <= k < |args| ==> args[k] - 0.1 <= out[k] < args[k] + 0.1
  }

  /** `perturbCommand(args)`: `arg + Math.random() * 0.2 - 0.1` for each argument. */
  method PerturbCommand(args: seq<real>) returns (out: seq<real>)
    ensures Perturbed(args, out)
  {
    var degree := 0.2;
    out := [];
    for i := 0 to |args|
      invariant |out| == i
      invariant forall k :: 0 <= k < i ==> args[k] - 0.1 <= out[k] < args[k] + 0.1
    {
      var u := RandomReal();
      out := out + [args[i] + u * degree - degree / 2.0];
    }
  }
}
