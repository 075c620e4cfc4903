/**
 * The numeric side of the calculator.  `parseFloat` is given a concrete
 * meaning on decimal literals; the floating-point operators and the
 * conversions of a number back to text stay abstract: they are fields of a
 * `FloatLib` value, and every property proved below holds whatever those
 * functions are.
 */
module Numeric {
  import opened Wrappers
  import Text

  /** The four pending operations; "no operation" is `None` of `Option<Op>`. */
  datatype Op = Add | Subtract | Multiply | Divide

  predicate IsDigit(c: char) { '0' <= c <= '9' }

  predicate AllDigits(s: string) { forall i :: 0 <= i < |s| ==> IsDigit(s[i]) }

  /** The value of a digit character; the functions below only meet digits. */
  function DigitValue(c: char): (d: nat)
    ensures d <= 9
  {
    if IsDigit(c) then c as int - '0' as int else 0
  }

  /** Length of the longest prefix of `s` made of decimal digits. */
  function DigitRun(s: string): (n: nat)
    ensures n <= |s|
  {
    if s != [] && IsDigit(s[0]) then 1 + DigitRun(s[1..]) else 0
  }

  /** Value of a digit string read as an integer. */
  function IntValue(ds: string): nat
  {
    if ds == [] then 0 else 10 * IntValue(ds[..|ds| - 1]) + DigitValue(ds[|ds| - 1])
  }

  /** Value of a digit string read as the digits after a decimal point. */
  function FracValue(ds: string): (v: real)
    ensures 0.0 <= v < 1.0
  {
    if ds == [] then 0.0 else (DigitValue(ds[0]) as real + FracValue(ds[1..])) / 10.0
  }

  /** The fraction digits that follow a point at the start of `rest`, if there is one. */
  function FractionDigits(rest: string): string
  {
    if rest != [] && rest[0] == '.' then rest[1..][..DigitRun(rest[1..])] else ""
  }

  /** parseFloat after the sign: integer digits, then optionally a point and fraction digits. */
  function ParseUnsigned(body: string): (r: Option<real>)
    ensures r.Some? ==> exists i :: 0 <= i < |body| && IsDigit(body[i])
    ensures body != [] && IsDigit(body[0]) ==> r.Some?
  {
    var n := DigitRun(body);
    var fracDigits := FractionDigits(body[n..]);
    if n == 0 && fracDigits == "" then None
    else
      assert IsDigit(body[if n > 0 then 0 else 1]);
      Some(IntValue(body[..n]) as real + FracValue(fracDigits))
  }

  /**
   * JavaScript's `parseFloat` on the decimal literals the calculator builds:
   * an optional sign, integer digits, and optionally a point followed by
   * fraction digits, read from the longest prefix of that shape; `None`
   * stands for NaN, the result when no digit is found.
   */
  function ParseFloat(s: string): (r: Option<real>)
    ensures r.Some? ==> exists i :: 0 <= i < |s| && IsDigit(s[i])
    ensures s != [] && IsDigit(s[0]) ==> r.Some?
  {
    if s != [] && (s[0] == '-' || s[0] == '+') then
      match ParseUnsigned(s[1..])
      case None => None
      case Some(v) => Some(if s[0] == '-' then -v else v)
    else ParseUnsigned(s)
  }

  /** A string of digits with at most one point and at least one digit, as digit entry builds it. */
  ghost predicate IsNumeral(s: string)
  {
    (forall i :: 0 <= i < |s| ==> IsDigit(s[i]) || s[i] == '.') &&
    Text.Count(s, '.') <= 1 &&
    exists i :: 0 <= i < |s| && IsDigit(s[i])
  }

  /** Every character is a zero digit or the point. */
  predicate AllZero(s: string) { forall i :: 0 <= i < |s| ==> s[i] == '0' || s[i] == '.' }

  lemma {:induction false} IntValueZero(ds: string)
    requires AllDigits(ds)
    ensures IntValue(ds) == 0 <==> AllZero(ds)
  {
    if ds != [] {
      var init := ds[..|ds| - 1];
      IntValueZero(init);
      assert ds == init + [ds[|ds| - 1]];
    }
  }

  lemma {:induction false} FracValueZero(ds: string)
    requires AllDigits(ds)
    ensures FracValue(ds) == 0.0 <==> AllZero(ds)
  {
    if ds != [] {
      FracValueZero(ds[1..]);
      assert ds == [ds[0]] + ds[1..];
    }
  }

  lemma {:induction false} DigitRunAll(ds: string)
    requires AllDigits(ds)
    ensures DigitRun(ds) == |ds|
  {
    if ds != [] {
      assert AllDigits(ds[1..]) by {
        forall i | 0 <= i < |ds[1..]| ensures IsDigit(ds[1..][i]) {
          assert ds[1..][i] == ds[i + 1];
        }
      }
      DigitRunAll(ds[1..]);
    }
  }

  /** A digit string parses to its integer value. */
  lemma ParseDigits(ds: string)
    requires ds != [] && AllDigits(ds)
    ensures ParseFloat(ds) == Some(IntValue(ds) as real)
  {
    assert ds[0] != '-' && ds[0] != '+';
    DigitRunAll(ds);
    assert ds[..|ds|] == ds;
    assert ds[|ds|..] == [];
  }

  /** parseFloat after the sign, once the integer digits and fraction digits are known. */
  lemma ParseUnsignedValue(s: string, a: string, b: string)
    requires DigitRun(s) == |a| && s[..|a|] == a && FractionDigits(s[|a|..]) == b
    requires a != [] || b != []
    ensures ParseUnsigned(s) == Some(IntValue(a) as real + FracValue(b))
  {
  }

  /** Without a sign, parseFloat reads the whole string as unsigned. */
  lemma ParseFloatUnsigned(s: string)
    requires s == [] || (s[0] != '-' && s[0] != '+')
    ensures ParseFloat(s) == ParseUnsigned(s)
  {
  }

  /** The fraction digits after a point are all the digits that follow it. */
  lemma FractionDigitsAll(b: string)
    requires AllDigits(b)
    ensures FractionDigits("." + b) == b
  {
    assert ("." + b)[1..] == b;
    DigitRunAll(b);
    assert b[..|b|] == b;
  }

  /** parseFloat of a string known to start with the digits `a` and then a point and the digits `b`. */
  lemma ParseDigitsPointDigits(s: string, a: string, b: string)
    requires AllDigits(b) && (a != [] || b != [])
    requires s != [] && s[0] != '-' && s[0] != '+'
    requires DigitRun(s) == |a| && s[..|a|] == a && s[|a|..] == "." + b
    ensures ParseFloat(s) == Some(IntValue(a) as real + FracValue(b))
  {
    ParseFloatUnsigned(s);
    FractionDigitsAll(b);
    ParseUnsignedValue(s, a, b);
  }

  /** Digits, a point, digits: the integer value plus the fraction value. */
  lemma ParsePointed(a: string, b: string)
    requires AllDigits(a) && AllDigits(b) && (a != [] || b != [])
    ensures ParseFloat(a + "." + b) == Some(IntValue(a) as real + FracValue(b))
  {
    var s := a + "." + b;
    assert s[0] != '-' && s[0] != '+' by {
      if a != [] { assert s[0] == a[0]; } else { assert s[0] == '.'; }
    }
    assert s == a + ("." + b);
    DigitRunPrefix(a, "." + b);
    assert s[..|a|] == a && s[|a|..] == "." + b;
    ParseDigitsPointDigits(s, a, b);
  }

  /** The digit run of digits followed by a non-digit ends at that non-digit. */
  lemma {:induction false} DigitRunPrefix(a: string, t: string)
    requires AllDigits(a) && (t != [] ==> !IsDigit(t[0]))
    ensures DigitRun(a + t) == |a|
  {
    if a != [] {
      assert (a + t)[1..] == a[1..] + t;
      assert AllDigits(a[1..]) by {
        forall i | 0 <= i < |a[1..]| ensures IsDigit(a[1..][i]) {
          assert a[1..][i] == a[i + 1];
        }
      }
      DigitRunPrefix(a[1..], t);
    } else {
      assert a + t == t;
    }
  }

  /** A numeral is either all digits, or digits, one point and digits. */
  lemma NumeralShape(s: string)
    requires IsNumeral(s)
    ensures '.' !in s ==> s != [] && AllDigits(s)
    ensures '.' in s ==> var i := Text.IndexOf(s, '.');
      AllDigits(s[..i]) && AllDigits(s[i + 1..]) && (s[..i] != [] || s[i + 1..] != []) &&
      s == s[..i] + "." + s[i + 1..]
  {
    if '.' in s {
      var i := Text.IndexOf(s, '.');
      var a, b := s[..i], s[i + 1..];
      assert s == a + "." + b;
      Text.CountConcat(a + ".", b, '.');
      Text.CountConcat(a, ".", '.');
      assert '.' !in b;
      assert AllDigits(a) by {
        forall k | 0 <= k < |a| ensures IsDigit(a[k]) {
          assert a[k] == s[k];
          assert a[k] in a;
        }
      }
      assert AllDigits(b) by {
        forall k | 0 <= k < |b| ensures IsDigit(b[k]) {
          assert b[k] == s[i + 1 + k];
          assert b[k] in b;
        }
      }
      var k :| 0 <= k < |s| && IsDigit(s[k]);
    }
  }

  /** Zero digits and points are all zeros on both sides of the point. */
  lemma AllZeroPointed(a: string, b: string)
    ensures AllZero(a + "." + b) <==> AllZero(a) && AllZero(b)
  {
    var s := a + "." + b;
    if AllZero(s) {
      assert forall k :: 0 <= k < |a| ==> a[k] == s[k];
      assert forall k :: 0 <= k < |b| ==> b[k] == s[|a| + 1 + k];
    }
  }

  /**
   * A numeral always parses, to a non-negative value, and that value is 0
   * exactly when all its digits are zeros: "0", "0.", "0.00" and ".0" all
   * divide by zero.
   */
  lemma NumeralParse(s: string)
    requires IsNumeral(s)
    ensures ParseFloat(s).Some? && ParseFloat(s).value >= 0.0
    ensures ParseFloat(s).value == 0.0 <==> AllZero(s)
  {
    NumeralShape(s);
    if '.' in s {
      var i := Text.IndexOf(s, '.');
      var a, b := s[..i], s[i + 1..];
      ParsePointed(a, b);
      IntValueZero(a);
      FracValueZero(b);
      AllZeroPointed(a, b);
    } else {
      ParseDigits(s);
      IntValueZero(s);
    }
  }

  /** Strings without a digit are NaN: the empty operand, a lone point and the error text. */
  lemma ParseNoDigits()
    ensures ParseFloat("") == None && ParseFloat(".") == None && ParseFloat("Error") == None
  {
    assert DigitRun("") == 0;
    assert DigitRun(".") == 0;
    assert DigitRun("Error") == 0;
  }

  /** Zeros followed by a point read as 0. */
  lemma ParseZeroPoint()
    ensures ParseFloat("0.") == Some(0.0) && ParseFloat("0.00") == Some(0.0)
  {
    assert DigitRun("0.") == 1 && "0."[..1] == "0" && "0."[2..] == "";
    assert IntValue("0") == 0;
    assert DigitRun("0.00") == 1 && "0.00"[..1] == "0" && "0.00"[2..] == "00";
    assert DigitRun("00") == 2 && "00"[..2] == "00" && "00"[1..] == "0";
  }

  /** A missing integer part and a sign are accepted, as in JavaScript. */
  lemma ParseSigned()
    ensures ParseFloat(".5") == Some(0.5) && ParseFloat("-12.5") == Some(-12.5)
  {
    assert DigitRun(".5") == 0 && ".5"[1..] == "5" && "5"[..1] == "5";
    assert FracValue("5") == 0.5;
    var body := "-12.5"[1..];
    assert body == "12.5";
    assert DigitRun(body) == 2 && body[..2] == "12" && body[3..] == "5";
    assert "12"[..1] == "1" && IntValue("1") == 1 && IntValue("12") == 12;
  }

  /**
   * A string as JavaScript's Number#toString writes a number: not empty,
   * at most one point, and no leading zero except directly before the point.
   */
  predicate IsNumberText(s: string)
  {
    s != "" && Text.Count(s, '.') <= 1 && !(|s| >= 2 && s[0] == '0' && s[1] != '.')
  }

  /**
   * The floating-point library the calculator calls: each operator together
   * with the `toString` of its result, and `toLocaleString('en')` with no
   * fraction digits (`grouped`).
   */
  datatype FloatLib = FloatLib(
    add: (real, real) -> string,
    subtract: (real, real) -> string,
    multiply: (real, real) -> string,
    divide: (real, real) -> string,
    grouped: real -> string)
  {
    /** The text of `x op y`. */
    function Apply(op: Op, x: real, y: real): string
    {
      match op
      case Add => add(x, y)
      case Subtract => subtract(x, y)
      case Multiply => multiply(x, y)
      case Divide => divide(x, y)
    }

    /** What Number#toString guarantees about every result text. */
    ghost predicate Valid()
    {
      forall op, x, y :: IsNumberText(Apply(op, x, y)) && Apply(op, x, y) != "Error"
    }
  }
}
