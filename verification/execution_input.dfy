/**
 The input string `CalculatorFacade.execute` sends with each start request, and a
 decoder for it, `ParseCalculatorInput`, that serves as its partner: every
 operation without a double quote, with any two operands, is recovered exactly
 from the string by that decoder. The decoder reads this one format; it is not
 a JSON reader and does not check JSON escapes.
 */
module ExecutionInput {
  import opened StepFunctions

  /** What the calculator workflow is asked to do. */
  datatype CalculatorRequest = CalculatorRequest(operator: string, first: int, second: int)

  predicate IsDigit(c: char) { '0' <= c <= '9' }

  function DigitChar(d: nat): (c: char)
    requires d < 10
    ensures IsDigit(c)
  {
    ('0' as int + d) as char
  }

  function DigitValue(c: char): (d: nat)
    requires IsDigit(c)
    ensures d < 10 && DigitChar(d) == c
  {
    c as int - '0' as int
  }

  /** The decimal digits of `n`, most significant first, with no leading zero. */
  function NaturalToString(n: nat): (s: string)
    ensures |s| > 0
    ensures forall i :: 0 <= i < |s| ==> IsDigit(s[i])
    ensures s[0] == '0' ==> n == 0 && s == "0"
  {
    if n < 10 then [DigitChar(n)] else NaturalToString(n / 10) + [DigitChar(n % 10)]
  }

  /** Java's `Integer.toString`, which string concatenation applies to an `Integer`. */
  function IntegerToString(n: int): (s: string)
    ensures |s| > 0
    ensures s[0] == '-' <==> n < 0
    ensures n >= 0 ==> IsDigit(s[0])
    ensures forall i :: 0 < i < |s| ==> IsDigit(s[i])
    ensures s == "0" || s[0] != '0'
    ensures n < 0 ==> |s| > 1 && s[1] != '0'
  {
    if n < 0 then "-" + NaturalToString(-n) else NaturalToString(n)
  }

  function ParseNatural(s: string): Option<nat>
  {
    if s == [] || !IsDigit(s[|s| - 1]) then None
    else if |s| == 1 then Some(DigitValue(s[0]))
    else match ParseNatural(s[..|s| - 1])
      case None => None
      case Some(high) => Some(high * 10 + DigitValue(s[|s| - 1]))
  }

  function ParseInteger(s: string): Option<int>
  {
    if |s| > 0 && s[0] == '-' then
      match ParseNatural(s[1..])
      case None => None
      case Some(m) => Some(-(m as int))
    else
      match ParseNatural(s)
      case None => None
      case Some(m) => Some(m)
  }

  lemma {:induction false} NaturalRoundTrip(n: nat)
    ensures ParseNatural(NaturalToString(n)) == Some(n)
  {
    var s := NaturalToString(n);
    if n >= 10 {
      NaturalRoundTrip(n / 10);
      assert s[..|s| - 1] == NaturalToString(n / 10);
      assert DigitValue(s[|s| - 1]) == n % 10;
    } else {
      assert DigitValue(s[0]) == n;
    }
  }

  /** Rendering an operand and reading it back gives the operand. */
  lemma IntegerRoundTrip(n: int)
    ensures ParseInteger(IntegerToString(n)) == Some(n)
  {
    if n < 0 {
      NaturalRoundTrip(-n);
      assert IntegerToString(n)[1..] == NaturalToString(-n);
    } else {
      NaturalRoundTrip(n);
    }
  }

  /** A rendered operand holds only digits and a leading minus sign. */
  lemma IntegerCharacters(n: int)
    ensures forall i :: 0 <= i < |IntegerToString(n)| ==> IntegerToString(n)[i] == '-' || IsDigit(IntegerToString(n)[i])
  {
  }

  // The fixed pieces of the input between the variable parts, as the source
  // concatenates them.
  const OperatorOpen := "{\n  \"operator\": \""
  const OperandsOpen := "\",\n  \"operands\": ["
  const OperandSeparator := ", "
  const InputClose := "]\n}"

  /**
   The input `execute` builds: the operation inserted verbatim (nothing is
   escaped) and the two operands in argument order.
   */
  function CalculatorInput(operation: string, first: int, second: int): (s: string)
    ensures OperatorOpen + operation + OperandsOpen <= s
    ensures |s| >= |InputClose| && s[|s| - |InputClose|..] == InputClose
  {
    OperatorOpen + operation + OperandsOpen + IntegerToString(first)
    + OperandSeparator + IntegerToString(second) + InputClose
  }

  /** The index of the first `c` in `s`, or `|s|` when there is none. */
  function IndexOf(s: string, c: char): (k: nat)
    ensures k <= |s|
    ensures forall j :: 0 <= j < k ==> s[j] != c
    ensures k < |s| ==> s[k] == c
  {
    if s == [] then 0 else if s[0] == c then 0 else 1 + IndexOf(s[1..], c)
  }

  lemma IndexOfAfterFree(a: string, b: string, c: char)
    requires forall j :: 0 <= j < |a| ==> a[j] != c
    requires |b| > 0 && b[0] == c
    ensures IndexOf(a + b, c) == |a|
  {
    assert forall j :: 0 <= j < |a| ==> (a + b)[j] == a[j];
    assert (a + b)[|a|] == c;
  }

  /** Splits `s` at the first `c`: the text before it and the rest, `c` included. */
  function SplitAt(s: string, c: char): (r: (string, string))
    ensures r.0 + r.1 == s
    ensures forall j :: 0 <= j < |r.0| ==> r.0[j] != c
  {
    var k := IndexOf(s, c);
    (s[..k], s[k..])
  }

  lemma SplitAfterFree(a: string, b: string, c: char)
    requires forall j :: 0 <= j < |a| ==> a[j] != c
    requires |b| > 0 && b[0] == c
    ensures SplitAt(a + b, c) == (a, b)
  {
    IndexOfAfterFree(a, b, c);
    assert (a + b)[..|a|] == a;
    assert (a + b)[|a|..] == b;
  }

  /** Reads `<first>, <second>]\n}`: each operand is the text up to the next comma or bracket. */
  function ParseOperands(s: string): Option<(int, int)>
  {
    var (firstText, afterFirst) := SplitAt(s, ',');
    if !(OperandSeparator <= afterFirst) then None
    else
      var (secondText, rest) := SplitAt(afterFirst[|OperandSeparator|..], ']');
      if rest != InputClose then None
      else
        match (ParseInteger(firstText), ParseInteger(secondText))
        case (Some(first), Some(second)) => Some((first, second))
        case _ => None
  }

  /** Reads `<operation>",\n  "operands": [` and then the operands. */
  function ParseOperation(s: string): (r: Option<CalculatorRequest>)
    ensures r.Some? ==> '"' !in r.value.operator
  {
    var (operation, afterOperation) := SplitAt(s, '"');
    if !(OperandsOpen <= afterOperation) then None
    else
      match ParseOperands(afterOperation[|OperandsOpen|..])
      case Some((first, second)) => Some(CalculatorRequest(operation, first, second))
      case None => None
  }

  /**
   Reads a calculator input back: the operation is everything up to the first
   double quote after the opening, then come the operands. Only this format
   is read: JSON escapes such as a backslash before a quote are not decoded.
   */
  function ParseCalculatorInput(s: string): (r: Option<CalculatorRequest>)
    ensures r.Some? ==> '"' !in r.value.operator
  {
    if OperatorOpen <= s then ParseOperation(s[|OperatorOpen|..]) else None
  }

  lemma OperandsRoundTrip(first: int, second: int)
    ensures ParseOperands(IntegerToString(first) + OperandSeparator + IntegerToString(second) + InputClose)
            == Some((first, second))
  {
    var firstText, secondText := IntegerToString(first), IntegerToString(second);
    var afterFirst := OperandSeparator + secondText + InputClose;
    assert firstText + OperandSeparator + secondText + InputClose == firstText + afterFirst;
    IntegerCharacters(first);
    SplitAfterFree(firstText, afterFirst, ',');
    assert afterFirst[|OperandSeparator|..] == secondText + InputClose;
    IntegerCharacters(second);
    SplitAfterFree(secondText, InputClose, ']');
    IntegerRoundTrip(first);
    IntegerRoundTrip(second);
  }

  lemma OperationRoundTrip(operation: string, first: int, second: int)
    requires '"' !in operation
    ensures ParseOperation(operation + OperandsOpen + IntegerToString(first) + OperandSeparator
                           + IntegerToString(second) + InputClose)
            == Some(CalculatorRequest(operation, first, second))
  {
    var firstText, secondText := IntegerToString(first), IntegerToString(second);
    var operands := firstText + OperandSeparator + secondText + InputClose;
    var afterOperation := OperandsOpen + operands;
    calc {
      operation + OperandsOpen + firstText + OperandSeparator + secondText + InputClose;
      operation + (OperandsOpen + firstText + OperandSeparator + secondText + InputClose);
      operation + (OperandsOpen + (firstText + OperandSeparator + secondText + InputClose));
    }
    assert forall j :: 0 <= j < |operation| ==> operation[j] != '"';
    SplitAfterFree(operation, afterOperation, '"');
    assert afterOperation[|OperandsOpen|..] == operands;
    OperandsRoundTrip(first, second);
  }

  /** For an operation without a double quote, `ParseCalculatorInput` recovers exactly what was sent. */
  lemma InputRoundTrip(operation: string, first: int, second: int)
    requires '"' !in operation
    ensures ParseCalculatorInput(CalculatorInput(operation, first, second))
            == Some(CalculatorRequest(operation, first, second))
  {
    var firstText, secondText := IntegerToString(first), IntegerToString(second);
    var rest := operation + OperandsOpen + firstText + OperandSeparator + secondText + InputClose;
    var s := CalculatorInput(operation, first, second);
    calc {
      s;
      OperatorOpen + operation + OperandsOpen + firstText + OperandSeparator + secondText + InputClose;
      OperatorOpen + (operation + OperandsOpen + firstText + OperandSeparator + secondText + InputClose);
    }
    assert s[|OperatorOpen|..] == rest;
    OperationRoundTrip(operation, first, second);
  }

  /**
   The operation is inserted unescaped: `ParseCalculatorInput` gives back the
   request that was sent exactly when the operation holds no double quote.
   */
  lemma InputDecodesIffQuoteFree(operation: string, first: int, second: int)
    ensures ParseCalculatorInput(CalculatorInput(operation, first, second))
            == Some(CalculatorRequest(operation, first, second))
        <==> '"' !in operation
  {
    if '"' !in operation {
      InputRoundTrip(operation, first, second);
    }
  }
}
