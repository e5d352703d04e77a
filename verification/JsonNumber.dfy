/** The numbers of RFC 8259 (section 6): the scanner of JsonText takes exactly what the grammar makes. */
module JsonNumber {
  import opened JsonText

  predicate AllDigits(s: string) {
    forall i | 0 <= i < |s| :: '0' <= s[i] <= '9'
  }

  // minus, int, frac and exp of section 6 of RFC 8259; frac and exp may be missing.
  datatype Number = Number(minus: bool, whole: string, frac: string, e: char, sign: string, exp: string) {
    predicate Ok() {
      && AllDigits(whole) && AllDigits(frac) && AllDigits(exp)
      && (whole == "0" || (whole != "" && whole[0] != '0'))
      && (e == 'e' || e == 'E') && (sign == "" || sign == "+" || sign == "-")
    }

    function Fraction(): string {
      if frac == "" then "" else "." + frac
    }

    function Exponent(): string {
      if exp == "" then "" else [e] + (sign + exp)
    }

    function Text(): string {
      (if minus then "-" else "") + (whole + (Fraction() + Exponent()))
    }
  }

  lemma {:induction false} DigitsOf(a: string, b: string)
    requires AllDigits(a) && (b == "" || !IsDigit(b[0]))
    ensures Digits(a + b) == |a| && (a + b)[|a|..] == b
  {
    if a == "" {
      assert a + b == b;
    } else {
      assert (a + b)[1..] == a[1..] + b;
      DigitsOf(a[1..], b);
    }
  }

  lemma {:induction false} DigitsAreDigits(s: string)
    ensures Digits(s) <= |s| && AllDigits(s[..Digits(s)])
  {
    if s != "" && IsDigit(s[0]) {
      DigitsAreDigits(s[1..]);
      var n := Digits(s[1..]);
      assert s[..n + 1] == [s[0]] + s[1..][..n];
    }
  }

  lemma ExponentIs(x: Number)
    requires x.Ok()
    ensures IsExponent(x.Exponent()) && (x.Exponent() == "" || x.Exponent()[0] == 'e' || x.Exponent()[0] == 'E')
  {
    if x.exp != "" {
      var s := x.Exponent();
      DigitsOf(x.exp, "");
      assert x.exp + "" == x.exp;
      assert s[1..] == x.sign + x.exp;
      if x.sign == "" {
        assert s[1..] == x.exp && s[1] == x.exp[0];
      } else {
        assert s[1] == x.sign[0] && s[2..] == x.exp;
      }
      hide Digits;
    }
  }

  lemma FractionIs(x: Number)
    requires x.Ok()
    ensures var u := x.Fraction() + x.Exponent();
            && (u == "" || !IsDigit(u[0]))
            && if u != "" && u[0] == '.'
               then var k := Digits(u[1..]); k > 0 && k <= |u[1..]| && IsExponent(u[1..][k..]) else IsExponent(u)
  {
    ExponentIs(x);
    var u := x.Fraction() + x.Exponent();
    hide IsExponent, Digits, Number.Exponent;
    if x.frac == "" {
      assert u == x.Exponent();
    } else {
      DigitsOf(x.frac, x.Exponent());
      assert u[1..] == x.frac + x.Exponent();
    }
  }

  // What the grammar makes is a number ...
  lemma NumberIs(x: Number)
    requires x.Ok()
    ensures IsNumber(x.Text())
  {
    FractionIs(x);
    var u := x.Fraction() + x.Exponent();
    var t := x.whole + u;
    DigitsOf(x.whole, u);
    hide Digits, IsExponent, Number.Fraction, Number.Exponent;
    assert t[0] == x.whole[0];
    if x.minus {
      assert x.Text()[0] == '-' && x.Text()[1..] == t;
    } else {
      assert x.Text() == t;
    }
  }

  lemma ExponentFrom(s: string) returns (e: char, sign: string, exp: string)
    requires IsExponent(s)
    ensures (e == 'e' || e == 'E') && (sign == "" || sign == "+" || sign == "-") && AllDigits(exp)
    ensures s == if exp == "" then "" else [e] + (sign + exp)
  {
    e, sign, exp := 'e', "", "";
    if s != "" {
      e := s[0];
      sign := if |s| > 1 && (s[1] == '+' || s[1] == '-') then [s[1]] else "";
      exp := s[1 + |sign|..];
      DigitsAreDigits(exp);
      assert exp[..|exp|] == exp;
      assert s == [e] + (sign + exp);
    }
  }

  // Where a number goes on after its whole part.
  predicate GoesOn(u: string) {
    if u != "" && u[0] == '.'
    then var k := Digits(u[1..]); k > 0 && k <= |u[1..]| && IsExponent(u[1..][k..]) else IsExponent(u)
  }

  lemma SplitsAtPoint(u: string, k: nat)
    requires u != "" && u[0] == '.' && k < |u|
    ensures u == "." + u[1..][..k] + u[1..][k..]
  {
    assert u[1..] == u[1..][..k] + u[1..][k..];
  }

  lemma TailFrom(u: string) returns (frac: string, e: char, sign: string, exp: string)
    requires GoesOn(u)
    ensures AllDigits(frac) && AllDigits(exp) && (e == 'e' || e == 'E') && (sign == "" || sign == "+" || sign == "-")
    ensures u == (if frac == "" then "" else "." + frac) + if exp == "" then "" else [e] + (sign + exp)
  {
    hide Digits, IsExponent, AllDigits;
    if u != "" && u[0] == '.' {
      var k := Digits(u[1..]);
      DigitsAreDigits(u[1..]);
      frac := u[1..][..k];
      e, sign, exp := ExponentFrom(u[1..][k..]);
      SplitsAtPoint(u, k);
    } else {
      NoDigits();
      frac := "";
      e, sign, exp := ExponentFrom(u);
      assert "" + u == u;
    }
  }

  lemma NoDigits()
    ensures AllDigits("")
  {
  }

  predicate Unsigned(t: string) {
    var n := Digits(t);
    (n == 1 || (n > 1 && t[0] != '0')) && n <= |t| && GoesOn(t[n..])
  }

  lemma UnsignedIs(s: string)
    ensures IsNumber(s) <==> Unsigned(if s != "" && s[0] == '-' then s[1..] else s)
  {
    hide Digits, IsExponent;
  }

  lemma WholeFrom(t: string) returns (whole: string, u: string)
    requires Unsigned(t)
    ensures AllDigits(whole) && (whole == "0" || (whole != "" && whole[0] != '0')) && GoesOn(u) && t == whole + u
  {
    hide Digits, GoesOn;
    var n := Digits(t);
    DigitsAreDigits(t);
    FirstDigit(t);
    whole, u := t[..n], t[n..];
    assert whole[0] == t[0];
    if n == 1 {
      assert whole == [t[0]];
    }
  }

  lemma NumberSplits(s: string) returns (minus: bool, whole: string, u: string)
    requires IsNumber(s)
    ensures AllDigits(whole) && (whole == "0" || (whole != "" && whole[0] != '0')) && GoesOn(u)
    ensures s == (if minus then "-" else "") + (whole + u)
  {
    hide Unsigned, IsNumber, GoesOn, AllDigits;
    UnsignedIs(s);
    minus := s != "" && s[0] == '-';
    whole, u := WholeFrom(if minus then s[1..] else s);
    if minus {
      assert s == "-" + s[1..];
    } else {
      assert "" + s == s;
    }
  }

  lemma FirstDigit(t: string)
    ensures Digits(t) > 0 ==> t != "" && IsDigit(t[0])
  {
  }

  // ... and every number is made so.
  lemma NumberFrom(s: string) returns (x: Number)
    requires IsNumber(s)
    ensures x.Ok() && x.Text() == s
  {
    hide Digits, IsExponent, IsNumber, GoesOn, AllDigits;
    var minus, whole, u := NumberSplits(s);
    var frac, e, sign, exp := TailFrom(u);
    x := Number(minus, whole, frac, e, sign, exp);
  }
}
