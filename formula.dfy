/** `evaluateFormula` and `generatePositiveFormula`. The source hands the
    formula text, with every `x` replaced by `*`, to the JavaScript engine;
    here that evaluation is an explicit evaluator for the arithmetic grammar

      formula := ['-'] numeral (operator numeral)*
      operator := '+' | '-' | '*' | '/'
      numeral  := '0' | a digit 1-9 followed by digits

    with `*` and `/` binding tighter than `+` and `-`, operators of equal
    precedence grouping to the left, over exact reals. Every formula of this
    grammar is a JavaScript expression with that value (numerals are kept free
    of leading zeros, which the engine would read as octal). */
module Formula {
  import opened Results
  import opened JsText
  import Random

  /** `formula.replace(/x/g, "*")`. */
  function ReplaceTimes(s: string): string
  {
    seq(|s|, i requires 0 <= i < |s| => if s[i] == 'x' then '*' else s[i])
  }

  predicate IsOperator(c: char)
  {
    c == '+' || c == '-' || c == '*' || c == '/'
  }

  predicate IsNumeral(d: string)
  {
    1 <= |d| && AllDigits(d) && (|d| == 1 || d[0] != '0')
  }

  /** One operator followed by its right operand. */
  datatype Step = Step(op: char, operand: nat)

  /** A tokenised formula: an optional leading minus, the first operand and
      the steps after it. */
  datatype Tokens = Tokens(negated: bool, first: nat, steps: seq<Step>)

  function TokenizeSteps(s: string): Option<seq<Step>>
  {
    if |s| == 0 then Some([])
    else if !IsOperator(s[0]) then None
    else
      var t := s[1..];
      var k := DigitRun(t);
      if !IsNumeral(t[..k]) then None
      else
        match TokenizeSteps(t[k..])
        case None => None
        case Some(rest) => Some([Step(s[0], DecimalValue(t[..k]))] + rest)
  }

  function Tokenize(s: string): Option<Tokens>
  {
    var negated := |s| > 0 && s[0] == '-';
    var t := if negated then s[1..] else s;
    var k := DigitRun(t);
    if !IsNumeral(t[..k]) then None
    else
      match TokenizeSteps(t[k..])
      case None => None
      case Some(steps) => Some(Tokens(negated, DecimalValue(t[..k]), steps))
  }

  function FirstOperand(t: Tokens): real
  {
    if t.negated then -(t.first as real) else t.first as real
  }

  /** One left-to-right pass: `sum` holds the completed products, `term` the
      product being built. Division by zero has no value here (the engine
      would give an infinity or NaN). */
  function Scan(sum: real, term: real, steps: seq<Step>): Option<real>
    decreases |steps|
  {
    if |steps| == 0 then Some(sum + term)
    else
      var n := steps[0].operand as real;
      if steps[0].op == '*' then Scan(sum, Times(term, n), steps[1..])
      else if steps[0].op == '/' then (if n == 0.0 then None else Scan(sum, term / n, steps[1..]))
      else if steps[0].op == '+' then Scan(sum + term, n, steps[1..])
      else Scan(sum + term, -n, steps[1..])
  }

  /** `evaluateFormula(formula)` on the modelled grammar; `None` for text
      outside it, the empty formula (a syntax error in JavaScript) included. */
  function Evaluate(formula: string): Option<real>
  {
    match Tokenize(ReplaceTimes(formula))
    case None => None
    case Some(t) => Scan(0.0, FirstOperand(t), t.steps)
  }

  // ---------------------------------------------------------------------
  // Reference semantics: the two passes of operator precedence

  /** First pass: each run of `*` and `/` collapsed, left to right, into one
      product; what is left is the first product and the `+`/`-` steps to
      the others. */
  function Collapse(head: real, steps: seq<Step>): Option<(real, seq<(char, real)>)>
    decreases |steps|
  {
    if |steps| == 0 then Some((head, []))
    else
      var n := steps[0].operand as real;
      if steps[0].op == '*' then Collapse(Times(head, n), steps[1..])
      else if steps[0].op == '/' then (if n == 0.0 then None else Collapse(head / n, steps[1..]))
      else
        match Collapse(n, steps[1..])
        case None => None
        case Some(r) => Some((head, [(steps[0].op, r.0)] + r.1))
  }

  /** Second pass: the additions and subtractions, left to right. */
  function AddUp(acc: real, terms: seq<(char, real)>): real
    decreases |terms|
  {
    if |terms| == 0 then acc
    else AddUp(if terms[0].0 == '+' then acc + terms[0].1 else acc - terms[0].1, terms[1..])
  }

  function TwoPass(t: Tokens): Option<real>
  {
    match Collapse(FirstOperand(t), t.steps)
    case None => None
    case Some(r) => Some(AddUp(r.0, r.1))
  }

  lemma TimesNegated(a: real, b: real)
    ensures Times(-a, b) == -Times(a, b)
  {
  }

  lemma DivideNegated(a: real, b: real)
    requires b != 0.0
    ensures (-a) / b == -(a / b)
  {
  }

  /** Collapsing from a negated head negates the first product and leaves
      the other steps alone. */
  lemma {:induction false} CollapseNegated(head: real, steps: seq<Step>)
    ensures Collapse(-head, steps).None? <==> Collapse(head, steps).None?
    ensures Collapse(head, steps).Some? ==>
      Collapse(-head, steps).value == (-Collapse(head, steps).value.0, Collapse(head, steps).value.1)
    decreases |steps|
  {
    if |steps| > 0 {
      var n := steps[0].operand as real;
      if steps[0].op == '*' {
        TimesNegated(head, n);
        CollapseNegated(Times(head, n), steps[1..]);
      } else if steps[0].op == '/' {
        if n != 0.0 {
          DivideNegated(head, n);
          CollapseNegated(head / n, steps[1..]);
        }
      }
    }
  }

  /** The one-pass scan from `sum` and `term` agrees with the two passes. */
  ghost predicate ScanAgrees(sum: real, term: real, steps: seq<Step>)
  {
    Scan(sum, term, steps) ==
      match Collapse(term, steps)
      case None => None
      case Some(r) => Some(AddUp(sum + r.0, r.1))
  }

  /** The one-pass scan computes exactly what the two precedence passes do. */
  lemma {:induction false} ScanIsTwoPass(sum: real, term: real, steps: seq<Step>)
    ensures Scan(sum, term, steps) ==
      match Collapse(term, steps)
      case None => None
      case Some(r) => Some(AddUp(sum + r.0, r.1))
    decreases |steps|, 1
  {
    if |steps| > 0 {
      if steps[0].op == '*' || steps[0].op == '/' {
        ScanProductStep(sum, term, steps);
      } else {
        ScanSumStep(sum, term, steps);
      }
      assert ScanAgrees(sum, term, steps);
    }
  }

  /** A `*` or `/` step folds into the product being built. */
  lemma {:induction false} ScanProductStep(sum: real, term: real, steps: seq<Step>)
    requires |steps| > 0 && (steps[0].op == '*' || steps[0].op == '/')
    ensures ScanAgrees(sum, term, steps)
    decreases |steps|, 0
  {
    var n := steps[0].operand as real;
    if steps[0].op == '*' {
      ScanIsTwoPass(sum, Times(term, n), steps[1..]);
    } else if n != 0.0 {
      ScanIsTwoPass(sum, term / n, steps[1..]);
    }
  }

  /** A `+` or `-` step completes the product and starts the next one. */
  lemma {:induction false} ScanSumStep(sum: real, term: real, steps: seq<Step>)
    requires |steps| > 0 && steps[0].op != '*' && steps[0].op != '/'
    ensures ScanAgrees(sum, term, steps)
    decreases |steps|, 0
  {
    var n := steps[0].operand as real;
    var rest := steps[1..];
    var m := if steps[0].op == '+' then n else -n;
    ScanIsTwoPass(sum + term, m, rest);
    if steps[0].op != '+' {
      CollapseNegated(n, rest);
    }
    match Collapse(n, rest)
    case None =>
    case Some(r) =>
      var terms := [(steps[0].op, r.0)] + r.1;
      assert terms[1..] == r.1;
  }

  /** `evaluateFormula` evaluates by ordinary precedence: products first,
      then sums, each left to right. */
  lemma EvaluateByPrecedence(formula: string)
    ensures Evaluate(formula) ==
      match Tokenize(ReplaceTimes(formula))
      case None => None
      case Some(t) => TwoPass(t)
  {
    match Tokenize(ReplaceTimes(formula))
    case None =>
    case Some(t) => ScanIsTwoPass(0.0, FirstOperand(t), t.steps);
  }

  /** Replacing `x` by `*` is idempotent, so a formula written with `x` and
      the same formula written with `*` evaluate alike. */
  lemma TimesSignIsMultiplication(formula: string)
    ensures ReplaceTimes(ReplaceTimes(formula)) == ReplaceTimes(formula)
    ensures Evaluate(ReplaceTimes(formula)) == Evaluate(formula)
  {
  }

  // ---------------------------------------------------------------------
  // Tokenising concatenations

  /** A numeral followed by anything but a digit is read as one operand. */
  lemma NumeralThen(d: string, rest: string)
    requires IsNumeral(d) && (|rest| == 0 || !IsDigit(rest[0]))
    ensures DigitRun(d + rest) == |d|
    ensures (d + rest)[..|d|] == d && (d + rest)[|d|..] == rest
  {
    DigitRunOfDigits(d, rest);
  }

  lemma TokenizeStepsCons(s: string, op: char, d: string, rest: string)
    requires s == [op] + d + rest
    requires IsOperator(op) && IsNumeral(d) && (|rest| == 0 || !IsDigit(rest[0]))
    ensures TokenizeSteps(s) ==
      match TokenizeSteps(rest)
      case None => None
      case Some(r) => Some([Step(op, DecimalValue(d))] + r)
  {
    assert s[1..] == d + rest;
    NumeralThen(d, rest);
  }

  lemma TokenizeCons(s: string, negated: bool, d: string, rest: string)
    requires s == (if negated then "-" else "") + d + rest
    requires IsNumeral(d) && (|rest| == 0 || !IsDigit(rest[0]))
    ensures Tokenize(s) ==
      match TokenizeSteps(rest)
      case None => None
      case Some(r) => Some(Tokens(negated, DecimalValue(d), r))
  {
    if negated {
      assert s[1..] == d + rest;
    } else {
      assert s == d + rest;
    }
    NumeralThen(d, rest);
  }

  lemma ReplaceTimesWithoutX(s: string)
    requires 'x' !in s
    ensures ReplaceTimes(s) == s
  {
  }

  // ---------------------------------------------------------------------
  // The formulas of the unit tests

  lemma TokenizeFirstStepsTail()
    ensures TokenizeSteps("*2-4") == Some([Step('*', 2), Step('-', 4)])
  {
    assert TokenizeSteps("") == Some([]);
    TokenizeStepsCons("-4", '-', "4", "");
    assert DecimalValue("4") == 4;
    assert [Step('-', 4)] + [] == [Step('-', 4)];
    TokenizeStepsCons("*2-4", '*', "2", "-4");
    assert DecimalValue("2") == 2;
    assert [Step('*', 2)] + [Step('-', 4)] == [Step('*', 2), Step('-', 4)];
  }

  lemma TokenizeFirstSteps()
    ensures TokenizeSteps("+5*2-4") == Some([Step('+', 5), Step('*', 2), Step('-', 4)])
  {
    TokenizeFirstStepsTail();
    TokenizeStepsCons("+5*2-4", '+', "5", "*2-4");
    assert DecimalValue("5") == 5;
    assert [Step('+', 5)] + [Step('*', 2), Step('-', 4)] == [Step('+', 5), Step('*', 2), Step('-', 4)];
  }

  /** The leading operand of the first formula. */
  lemma FirstHead()
    ensures "3+5*2-4" == "" + "3" + "+5*2-4"
    ensures IsNumeral("3") && DecimalValue("3") == 3
  {
  }

  lemma TokenizeFirstVector()
    ensures Tokenize("3+5*2-4") == Some(Tokens(false, 3, [Step('+', 5), Step('*', 2), Step('-', 4)]))
  {
    TokenizeFirstSteps();
    FirstHead();
    TokenizeCons("3+5*2-4", false, "3", "+5*2-4");
  }

  lemma ScanFirstVector()
    ensures Scan(0.0, 3.0, [Step('+', 5), Step('*', 2), Step('-', 4)]) == Some(9.0)
  {
  }

  /** `evaluateFormula("3+5*2-4")` is 9. */
  lemma EvaluateFirstVector()
    ensures Evaluate("3+5*2-4") == Some(9.0)
  {
    ReplaceTimesWithoutX("3+5*2-4");
    TokenizeFirstVector();
    ScanFirstVector();
  }

  lemma TokenizeSecondStepsTail()
    ensures TokenizeSteps("*3+1") == Some([Step('*', 3), Step('+', 1)])
  {
    assert TokenizeSteps("") == Some([]);
    TokenizeStepsCons("+1", '+', "1", "");
    assert DecimalValue("1") == 1;
    assert [Step('+', 1)] + [] == [Step('+', 1)];
    TokenizeStepsCons("*3+1", '*', "3", "+1");
    assert DecimalValue("3") == 3;
    assert [Step('*', 3)] + [Step('+', 1)] == [Step('*', 3), Step('+', 1)];
  }

  lemma TokenizeSecondSteps()
    ensures TokenizeSteps("-2*3+1") == Some([Step('-', 2), Step('*', 3), Step('+', 1)])
  {
    TokenizeSecondStepsTail();
    TokenizeStepsCons("-2*3+1", '-', "2", "*3+1");
    assert DecimalValue("2") == 2;
    assert [Step('-', 2)] + [Step('*', 3), Step('+', 1)] == [Step('-', 2), Step('*', 3), Step('+', 1)];
  }

  /** The leading operand of the second formula. */
  lemma SecondHead()
    ensures "10-2*3+1" == "" + "10" + "-2*3+1"
    ensures IsNumeral("10") && DecimalValue("10") == 10
  {
    assert "10"[..1] == "1";
  }

  lemma TokenizeSecondVector()
    ensures Tokenize("10-2*3+1") == Some(Tokens(false, 10, [Step('-', 2), Step('*', 3), Step('+', 1)]))
  {
    TokenizeSecondSteps();
    SecondHead();
    TokenizeCons("10-2*3+1", false, "10", "-2*3+1");
  }

  lemma ScanSecondVector()
    ensures Scan(0.0, 10.0, [Step('-', 2), Step('*', 3), Step('+', 1)]) == Some(5.0)
  {
  }

  /** `evaluateFormula("10-2*3+1")` is 5. */
  lemma EvaluateSecondVector()
    ensures Evaluate("10-2*3+1") == Some(5.0)
  {
    ReplaceTimesWithoutX("10-2*3+1");
    TokenizeSecondVector();
    ScanSecondVector();
  }

  lemma TokenizeThirdStepsTail()
    ensures TokenizeSteps("+6*3") == Some([Step('+', 6), Step('*', 3)])
  {
    assert TokenizeSteps("") == Some([]);
    TokenizeStepsCons("*3", '*', "3", "");
    assert DecimalValue("3") == 3;
    assert [Step('*', 3)] + [] == [Step('*', 3)];
    TokenizeStepsCons("+6*3", '+', "6", "*3");
    assert DecimalValue("6") == 6;
    assert [Step('+', 6)] + [Step('*', 3)] == [Step('+', 6), Step('*', 3)];
  }

  lemma TokenizeThirdSteps()
    ensures TokenizeSteps("/2+6*3") == Some([Step('/', 2), Step('+', 6), Step('*', 3)])
  {
    TokenizeThirdStepsTail();
    TokenizeStepsCons("/2+6*3", '/', "2", "+6*3");
    assert DecimalValue("2") == 2;
    assert [Step('/', 2)] + [Step('+', 6), Step('*', 3)] == [Step('/', 2), Step('+', 6), Step('*', 3)];
  }

  /** The leading operand of the third formula. */
  lemma ThirdHead()
    ensures "8/2+6*3" == "" + "8" + "/2+6*3"
    ensures IsNumeral("8") && DecimalValue("8") == 8
  {
  }

  lemma TokenizeThirdVector()
    ensures Tokenize("8/2+6*3") == Some(Tokens(false, 8, [Step('/', 2), Step('+', 6), Step('*', 3)]))
  {
    TokenizeThirdSteps();
    ThirdHead();
    TokenizeCons("8/2+6*3", false, "8", "/2+6*3");
  }

  lemma ScanThirdVector()
    ensures Scan(0.0, 8.0, [Step('/', 2), Step('+', 6), Step('*', 3)]) == Some(22.0)
  {
  }

  /** `evaluateFormula("8/2+6*3")` is 22. */
  lemma EvaluateThirdVector()
    ensures Evaluate("8/2+6*3") == Some(22.0)
  {
    ReplaceTimesWithoutX("8/2+6*3");
    TokenizeThirdVector();
    ScanThirdVector();
  }

  /** The seed of `generatePositiveFormula` evaluates to -1, so the loop
      always draws at least once; the empty formula has no value. */
  lemma EvaluateSeedAndEmpty()
    ensures Evaluate("-1") == Some(-1.0)
    ensures Evaluate("") == None
  {
    ReplaceTimesWithoutX("-1");
    assert TokenizeSteps("") == Some([]);
    TokenizeCons("-1", true, "1", "");
    assert DecimalValue("1") == 1;
    assert Tokenize("-1") == Some(Tokens(true, 1, []));
    ReplaceTimesWithoutX("");
  }

  // ---------------------------------------------------------------------
  // Generated formulas always have an integer value

  /** The operator steps of a generated formula after `x` became `*`: an
      operator of `+-*` at even positions and an operand 1-9 at odd ones. */
  predicate StepText(s: string, m: nat)
  {
    && |s| == 2 * m
    && forall i :: 0 <= i < |s| ==> if i % 2 == 0 then s[i] in "+-*" else Random.IsOperand(s[i])
  }

  predicate NoDivision(steps: seq<Step>)
  {
    forall k :: 0 <= k < |steps| ==> steps[k].op != '/'
  }

  lemma {:induction false} TokenizeStepText(s: string, m: nat)
    requires StepText(s, m)
    ensures TokenizeSteps(s).Some?
    ensures |TokenizeSteps(s).value| == m && NoDivision(TokenizeSteps(s).value)
    decreases m
  {
    if m == 0 {
      assert s == [];
    } else {
      var rest := s[2..];
      assert StepText(rest, m - 1) by {
        forall i | 0 <= i < |rest|
          ensures if i % 2 == 0 then rest[i] in "+-*" else Random.IsOperand(rest[i])
        {
          assert rest[i] == s[i + 2];
        }
      }
      assert s[0] in "+-*" && Random.IsOperand(s[1]);
      assert |rest| > 0 ==> rest[0] == s[2] && s[2] in "+-*";
      TokenizeStepsCons(s, s[0], [s[1]], rest);
      TokenizeStepText(rest, m - 1);
    }
  }

  lemma {:induction false} ReplacedShape(f: string, n: nat)
    requires Random.FormulaShape(f, n) && n >= 1
    ensures Tokenize(ReplaceTimes(f)).Some?
    ensures !Tokenize(ReplaceTimes(f)).value.negated
    ensures |Tokenize(ReplaceTimes(f)).value.steps| == n - 1
    ensures NoDivision(Tokenize(ReplaceTimes(f)).value.steps)
  {
    var s := ReplaceTimes(f);
    var rest := s[1..];
    assert StepText(rest, n - 1) by {
      forall i | 0 <= i < |rest|
        ensures if i % 2 == 0 then rest[i] in "+-*" else Random.IsOperand(rest[i])
      {
        assert rest[i] == s[i + 1];
        assert f[i + 1] in Random.OperatorSet || Random.IsOperand(f[i + 1]);
      }
    }
    assert Random.IsOperand(f[0]);
    assert s == "" + [s[0]] + rest;
    TokenizeCons(s, false, [s[0]], rest);
    TokenizeStepText(rest, n - 1);
  }

  lemma IntegerSum(a: real, b: real)
    requires IsInteger(a) && IsInteger(b)
    ensures IsInteger(a + b) && IsInteger(-b)
  {
    var fa, fb := a.Floor, b.Floor;
    assert a == fa as real && b == fb as real;
    Random.IntegerReal(fa + fb);
    Random.IntegerReal(-fb);
    assert a + b == (fa + fb) as real;
    assert -b == (-fb) as real;
  }

  lemma IntegerTimes(a: real, b: real)
    requires IsInteger(a) && IsInteger(b)
    ensures IsInteger(Times(a, b))
  {
    var p := a.Floor * b.Floor;
    assert Times(a, b) == p as real;
  }

  /** Without division every operand stays an integer. */
  lemma {:induction false} ScanInteger(sum: real, term: real, steps: seq<Step>)
    requires IsInteger(sum) && IsInteger(term) && NoDivision(steps)
    ensures Scan(sum, term, steps).Some? && IsInteger(Scan(sum, term, steps).value)
    decreases |steps|
  {
    IntegerSum(sum, term);
    if |steps| > 0 {
      var n := steps[0].operand as real;
      assert IsInteger(n);
      IntegerSum(sum, n);
      assert NoDivision(steps[1..]) by {
        forall k | 0 <= k < |steps[1..]| ensures steps[1..][k].op != '/' {
          assert steps[1..][k] == steps[k + 1];
        }
      }
      if steps[0].op == '*' {
        IntegerTimes(term, n);
        ScanInteger(sum, Times(term, n), steps[1..]);
      } else if steps[0].op == '+' {
        ScanInteger(sum + term, n, steps[1..]);
      } else {
        ScanInteger(sum + term, -n, steps[1..]);
      }
    }
  }

  /** A formula `generateRandomFormula(n)` can return has a value, and that
      value is an integer, exactly when it has at least one operand. */
  lemma ShapedFormulaEvaluates(f: string, n: nat)
    requires Random.FormulaShape(f, n)
    ensures Evaluate(f).Some? <==> n >= 1
    ensures Evaluate(f).Some? ==> IsInteger(Evaluate(f).value)
  {
    if n == 0 {
      assert f == "";
      EvaluateSeedAndEmpty();
    } else {
      ReplacedShape(f, n);
      var t := Tokenize(ReplaceTimes(f)).value;
      Random.IntegerReal(t.first);
      ScanInteger(0.0, FirstOperand(t), t.steps);
    }
  }

  /** `generatePositiveFormula(length)`: redraw `generateRandomFormula(length)`
      until the value is not negative, starting from "-1". `fuel` bounds the
      number of draws; running out of it is `StillSampling`. With no
      operands the empty formula is a syntax error, which the source throws
      and which is `FormulaNotEvaluable` here. */
  method GeneratePositiveFormula(length: nat, fuel: nat) returns (r: Result<string>)
    ensures r.Ok? ==> length >= 1 && Random.FormulaShape(r.value, length)
    ensures r.Ok? ==> Evaluate(r.value).Some? && Evaluate(r.value).value >= 0.0
    ensures r.Ok? ==> IsInteger(Evaluate(r.value).value)
    ensures r.Err? ==> (r.error == FormulaNotEvaluable && length == 0) || r.error == StillSampling
    ensures length == 0 && fuel > 0 ==> r == Err(FormulaNotEvaluable)
  {
    EvaluateSeedAndEmpty();
    var formula := "-1";
    var left := fuel;
    while true
      invariant formula == "-1" || Random.FormulaShape(formula, length)
      invariant formula == "-1" ==> left == fuel
      decreases left
    {
      var value := Evaluate(formula);
      if value.None? {
        ShapedFormulaEvaluates(formula, length);
        return Err(FormulaNotEvaluable);
      } else if value.value >= 0.0 {
        ShapedFormulaEvaluates(formula, length);
        return Ok(formula);
      }
      if left == 0 {
        return Err(StillSampling);
      }
      formula := Random.GenerateRandomFormula(length);
      if length > 0 {
        Random.FormulaEnds(formula, length);
      }
      left := left - 1;
    }
  }
}
