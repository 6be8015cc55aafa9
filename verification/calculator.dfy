/**
 * The calculator window: the display being typed, the pending equation, the
 * flag that the display holds a result, and the basic/scientific mode. The
 * evaluation of the equation is a foreign expression evaluator and arrives as
 * a parameter; the floating-point keys are not part of this model.
 */
module Calculator {
  import opened Options
  import opened Strings

  datatype Mode = Basic | Scientific

  /** The operator keys as they are labelled, and as the evaluator spells them. */
  const Times: char := '\U{00D7}'
  const DividedBy: char := '\U{00F7}'
  const MinusSign: char := '\U{2212}'

  const ErrorText: string := "Error"

  /** One character of the equation as handed to the evaluator. */
  function SanitizedChar(c: char): char
  {
    if c == Times then '*' else if c == DividedBy then '/' else if c == MinusSign then '-' else c
  }

  /** The equation with the labelled operators rewritten to '*', '/' and '-'; every other character kept. */
  function Sanitize(s: string): (r: string)
    ensures |r| == |s|
    ensures forall k :: 0 <= k < |s| ==> r[k] == SanitizedChar(s[k])
    ensures Times !in r && DividedBy !in r && MinusSign !in r
    ensures forall k :: 0 <= k < |s| && s[k] != Times && s[k] != DividedBy && s[k] != MinusSign ==> r[k] == s[k]
  {
    if s == [] then [] else [SanitizedChar(s[0])] + Sanitize(s[1..])
  }

  /** Rewriting an already rewritten equation changes nothing. */
  lemma SanitizeIdempotent(s: string)
    ensures Sanitize(Sanitize(s)) == Sanitize(s)
  {
    var once := Sanitize(s);
    var twice := Sanitize(once);
    forall k | 0 <= k < |s|
      ensures twice[k] == once[k]
    {
      assert once[k] != Times && once[k] != DividedBy && once[k] != MinusSign;
    }
  }

  /** The equation and the display are rewritten independently. */
  lemma {:induction false} SanitizeConcat(a: string, b: string)
    ensures Sanitize(a + b) == Sanitize(a) + Sanitize(b)
  {
    var l, r := Sanitize(a + b), Sanitize(a) + Sanitize(b);
    forall k | 0 <= k < |a + b|
      ensures l[k] == r[k]
    {
      if k < |a| {
        assert (a + b)[k] == a[k];
      } else {
        assert (a + b)[k] == b[k - |a|];
      }
    }
  }

  /** n! for a natural number: 1 for 0 and 1, 2 * 3 * ... * n above. */
  function Fact(n: nat): (r: nat)
    ensures r >= 1 && r >= n
  {
    if n <= 1 then 1 else n * Fact(n - 1)
  }

  /** The factorial never decreases as its argument grows. */
  lemma {:induction false} FactMonotone(m: nat, n: nat)
    requires m <= n
    ensures Fact(m) <= Fact(n)
    decreases n - m
  {
    if m < n {
      FactMonotone(m, n - 1);
      FactStep(n);
    }
  }

  lemma FactStep(n: nat)
    requires n >= 1
    ensures Fact(n - 1) <= Fact(n)
  {
    if n > 1 {
      var f := Fact(n - 1);
      assert Fact(n) == n * f;
      MulGrows(n, f);
    }
  }

  lemma MulGrows(n: nat, f: nat)
    requires n >= 1
    ensures f <= n * f
  {
    assert n * f == f + (n - 1) * f;
  }

  /**
   * The factorial key's loop: NaN (None) below 0, 1 for 0 and 1, and the
   * product 2 * 3 * ... * n above.
   */
  method Factorial(n: int) returns (r: Option<nat>)
    ensures n < 0 <==> r.None?
    ensures n >= 0 ==> r == Some(Fact(n))
  {
    if n < 0 {
      return None;
    }
    if n == 0 || n == 1 {
      return Some(1);
    }
    var result: nat := 1;
    var i := 2;
    while i <= n
      invariant 2 <= i <= n + 1
      invariant result == Fact(i - 1)
    {
      result := result * i;
      i := i + 1;
    }
    return Some(result);
  }

  class Calc {
    var display: string
    var equation: string
    var mode: Mode
    var hasResult: bool

    /** The display is never empty. */
    ghost predicate Valid()
      reads this`display
    {
      display != []
    }

    constructor ()
      ensures Valid() && display == "0" && equation == "" && mode == Basic && !hasResult
    {
      display := "0";
      equation := "";
      mode := Basic;
      hasResult := false;
    }

    /**
     * A digit key: after a result it starts a new number and drops the
     * equation; otherwise it replaces a lone '0' or is appended.
     */
    method Number(digit: char)
      modifies this`display, this`equation, this`hasResult
      ensures Valid() && !hasResult
      ensures old(hasResult) ==> display == [digit] && equation == ""
      ensures !old(hasResult) && old(display) == "0" ==> display == [digit] && equation == old(equation)
      ensures !old(hasResult) && old(display) != "0" ==> display == old(display) + [digit] && equation == old(equation)
    {
      if hasResult {
        display := [digit];
        equation := "";
        hasResult := false;
      } else {
        display := if display == "0" then [digit] else display + [digit];
      }
    }

    /** An operator key: the display and the operator become the whole equation (any earlier one is dropped), and the display restarts at '0'. */
    method Operator(op: char)
      modifies this`display, this`equation, this`hasResult
      ensures Valid()
      ensures equation == old(display) + " " + [op] + " " && display == "0" && !hasResult
      ensures StartsWith(equation, old(display)) && EndsWith(equation, [op, ' '])
    {
      equation := display + " " + [op] + " ";
      display := "0";
      hasResult := false;
      assert equation == old(display) + (" " + [op] + " ");
      assert equation[|equation| - 2..] == [op, ' '];
    }

    /**
     * Equals: the equation followed by the display, with the labelled
     * operators rewritten, goes to the evaluator. A value replaces the
     * display, clears the equation and marks a result; a failure shows
     * 'Error' and keeps the rest.
     */
    method Equals(evaluate: string -> Option<string>)
      modifies this`display, this`equation, this`hasResult
      ensures evaluate(Sanitize(old(equation) + old(display))) != Some([]) ==> Valid()
      ensures var v := evaluate(Sanitize(old(equation) + old(display)));
        && (v.Some? ==> display == v.value && equation == "" && hasResult)
        && (v.None? ==> display == ErrorText && equation == old(equation) && hasResult == old(hasResult))
    {
      var v := evaluate(Sanitize(equation + display));
      if v.Some? {
        display := v.value;
        equation := "";
        hasResult := true;
      } else {
        display := ErrorText;
      }
    }

    /** Clear: display '0', no equation, no result. */
    method Clear()
      modifies this`display, this`equation, this`hasResult
      ensures Valid() && display == "0" && equation == "" && !hasResult
    {
      display := "0";
      equation := "";
      hasResult := false;
    }

    /** Backspace drops the last character, but a one-character display becomes '0': it never empties. */
    method Backspace()
      modifies this`display
      ensures Valid()
      ensures |old(display)| > 1 ==> display == old(display)[..|old(display)| - 1]
      ensures |old(display)| <= 1 ==> display == "0"
    {
      if |display| > 1 {
        display := display[..|display| - 1];
      } else {
        display := "0";
      }
    }

    /** The decimal point is appended only when the display has none. */
    method Decimal()
      modifies this`display
      ensures '.' in display
      ensures '.' in old(display) ==> display == old(display)
      ensures '.' !in old(display) ==> display == old(display) + "."
    {
      if '.' !in display {
        display := display + ".";
      }
    }

    method SetMode(m: Mode)
      modifies this`mode
      ensures mode == m
    {
      mode := m;
    }
  }

  /** Typing a digit and deleting it again gives back a display that was not '0' and not a result. */
  method NumberThenBackspace(c: Calc, digit: char)
    requires c.Valid() && !c.hasResult && c.display != "0"
    modifies c
    ensures c.display == old(c.display) && c.equation == old(c.equation)
  {
    c.Number(digit);
    c.Backspace();
  }

  /** Pressing the decimal key twice is the same as pressing it once. */
  method DecimalTwice(c: Calc)
    modifies c
    ensures c.display == if '.' in old(c.display) then old(c.display) else old(c.display) + "."
  {
    c.Decimal();
    c.Decimal();
  }
}
