/** The number literals the tokenizer reads, the part of `strtod` the model
    covers: a run of digits, optionally followed by a '.' and a second run of
    digits, with at least one digit in all. The literal spans exactly those
    characters and denotes the decimal number they spell. */
module Literals {
  import opened Tokens
  import opened Lexer
  import LexerProperties

  /** 10 to the power k. */
  function Pow10(k: nat): (p: nat)
    ensures p >= 1
  {
    if k == 0 then 1 else 10 * Pow10(k - 1)
  }

  /** x with the decimal point moved k places to the right: x times 10 to
      the power k, written with multiplications by the constant 10 only. */
  function Shift(x: real, k: nat): (r: real)
    ensures x >= 0.0 ==> r >= x
  {
    if k == 0 then x else 10.0 * Shift(x, k - 1)
  }

  lemma {:induction false} ShiftAdd(x: real, y: real, k: nat)
    ensures Shift(x + y, k) == Shift(x, k) + Shift(y, k)
  {
    if k > 0 {
      ShiftAdd(x, y, k - 1);
    }
  }

  lemma {:induction false} ShiftInner(x: real, k: nat)
    ensures Shift(x, k + 1) == Shift(10.0 * x, k)
  {
    if k > 0 {
      ShiftInner(x, k - 1);
    }
  }

  /** On a natural number, moving the point k places multiplies by 10^k. */
  lemma {:induction false} ShiftNat(n: nat, k: nat)
    ensures Shift(n as real, k) == (n * Pow10(k)) as real
  {
    if k > 0 {
      ShiftNat(n, k - 1);
      assert n * Pow10(k) == 10 * (n * Pow10(k - 1));
    }
  }

  /** Moving the point back: x is Shift(x, k) divided by 10^k. */
  lemma {:induction false} ShiftBack(x: real, k: nat)
    ensures x == Shift(x, k) / Pow10(k) as real
  {
    if k > 0 {
      ShiftBack(x, k - 1);
      var s, p := Shift(x, k - 1), Pow10(k - 1) as real;
      assert Shift(x, k) == 10.0 * s && Pow10(k) as real == 10.0 * p;
      Cancel(s, p);
    }
  }

  lemma Cancel(s: real, p: real)
    requires p > 0.0
    ensures (10.0 * s) / (10.0 * p) == s / p
  {
  }

  /** Digit strings compose: the digits of a followed by those of b spell a
      shifted left by |b| places, plus b. */
  lemma {:induction false} NaturalValueAppend(a: string, b: string)
    requires AllDigits(a) && AllDigits(b)
    ensures AllDigits(a + b)
    ensures NaturalValue(a + b) == NaturalValue(a) * Pow10(|b|) + NaturalValue(b)
    decreases |b|
  {
    var u := a + b;
    assert AllDigits(u) by {
      forall k | 0 <= k < |u| ensures IsDigit(u[k]) {
        if k < |a| { assert u[k] == a[k]; } else { assert u[k] == b[k - |a|]; }
      }
    }
    if b == [] {
      assert u == a;
    } else {
      var init := b[..|b| - 1];
      assert u[..|u| - 1] == a + init && u[|u| - 1] == b[|b| - 1];
      NaturalValueAppend(a, init);
      assert Pow10(|b|) == 10 * Pow10(|init|);
      AppendDigit(NaturalValue(a), Pow10(|init|), NaturalValue(init), DigitValue(b[|b| - 1]));
    }
  }

  lemma AppendDigit(n: int, p: int, m: int, x: int)
    ensures 10 * (n * p + m) + x == n * (10 * p) + (10 * m + x)
  {
  }

  /** The leading digit of a digit string weighs 10 to the power of the
      number of digits after it. */
  lemma NaturalValueLead(ds: string)
    requires AllDigits(ds) && ds != []
    ensures NaturalValue(ds) == DigitValue(ds[0]) * Pow10(|ds| - 1) + NaturalValue(ds[1..])
  {
    var c := ds[0];
    assert ds == [c] + ds[1..];
    assert [c][..0] == [] && NaturalValue([c]) == DigitValue(c);
    NaturalValueAppend([c], ds[1..]);
  }

  /** The digits after the point, with the point moved past all of them,
      are the natural number they spell: ".14" moved two places is 14. */
  lemma {:induction false} FractionShift(ds: string)
    requires AllDigits(ds)
    ensures Shift(FractionValue(ds), |ds|) == NaturalValue(ds) as real
    decreases |ds|
  {
    if ds != [] {
      var t := ds[1..];
      var d := DigitValue(ds[0]);
      NaturalValueLead(ds);
      FractionShift(t);
      ShiftInner(FractionValue(ds), |t|);
      assert 10.0 * FractionValue(ds) == d as real + FractionValue(t);
      assert Shift(FractionValue(ds), |ds|) == Shift(d as real + FractionValue(t), |t|);
      ShiftAdd(d as real, FractionValue(t), |t|);
      ShiftNat(d, |t|);
      assert NaturalValue(ds) == d * Pow10(|t|) + NaturalValue(t);
    }
  }

  /** Hence the digits after the point denote their natural value divided
      by 10 to the power of their count: "14" after the point is 14/100. */
  lemma FractionValueDecimal(ds: string)
    requires AllDigits(ds)
    ensures FractionValue(ds) == NaturalValue(ds) as real / Pow10(|ds|) as real
  {
    FractionShift(ds);
    ShiftBack(FractionValue(ds), |ds|);
  }

  /** Where the parts of a + "." + b + rest sit. */
  lemma DecimalText(a: string, b: string, rest: string)
    ensures var s := a + "." + b + rest;
            && s == a + ("." + (b + rest))
            && |a| < |s| && s[|a|] == '.'
            && s[..|a|] == a && s[|a| + 1..] == b + rest
            && s[|a| + 1..][..|b|] == b
  {
    var s := a + "." + b + rest;
    AppendAssoc(a, ".", b);
    AppendAssoc(a, "." + b, rest);
    AppendAssoc(".", b, rest);
    var tail := "." + (b + rest);
    AppendDrop(a, tail);
    AppendTake(a, tail);
    AppendDrop(".", b + rest);
    DropDrop(s, |a|, 1);
    AppendTake(b, rest);
  }

  /** A literal with a point: the digits a, the '.', the digits b, and then
      anything that is not a digit. With at least one digit on either side,
      strtod takes all of a, the point and b ("3.14", ".5" and "1." alike),
      and the value is a plus b's digits read as a fraction. */
  lemma DecimalLiteral(a: string, b: string, rest: string)
    requires AllDigits(a) && AllDigits(b) && a + b != []
    requires rest == [] || !IsDigit(rest[0])
    ensures var s := a + "." + b + rest;
            && StartsNumber(s)
            && NumberLen(s) == |a| + 1 + |b|
            && NumberValue(s) == NaturalValue(a) as real + NaturalValue(b) as real / Pow10(|b|) as real
            && ScanOne(s) == Emit(Number(NumberValue(s)), |a| + 1 + |b|)
  {
    var s := a + "." + b + rest;
    DecimalText(a, b, rest);
    LexerProperties.DigitsLenAfterDigits(a, "." + (b + rest));
    LexerProperties.DigitsLenAfterDigits(b, rest);
    assert StartsNumber(s) by {
      if a == [] {
        assert s[1] == (b + rest)[0] == b[0];
      } else {
        assert s[0] == a[0];
      }
    }
    var n := NumberLen(s);
    assert n == |a| + 1 + |b|;
    assert s[|a| + 1..n] == s[|a| + 1..][..|b|];
    FractionValueDecimal(b);
  }

  /** A literal without a point: the digits a, then anything that is neither
      a digit nor a '.'. strtod takes exactly a, and the value is a's natural
      value. */
  lemma WholeLiteral(a: string, rest: string)
    requires AllDigits(a) && a != []
    requires rest == [] || (!IsDigit(rest[0]) && rest[0] != '.')
    ensures var s := a + rest;
            && StartsNumber(s)
            && NumberLen(s) == |a|
            && NumberValue(s) == NaturalValue(a) as real
            && ScanOne(s) == Emit(Number(NumberValue(s)), |a|)
  {
    var s := a + rest;
    LexerProperties.DigitsLenAfterDigits(a, rest);
    assert s[0] == a[0];
    assert s[..|a|] == a;
  }

  /** A text that is one number literal and nothing else scans as that
      number alone. */
  lemma LexOneNumber(s: string, v: real)
    requires s != [] && ScanOne(s) == Emit(Number(v), |s|)
    ensures Lex(s) == Ok([Number(v)])
  {
    assert s[|s|..] == [] && [] + [Number(v)] == [Number(v)];
    assert LexFrom(s, 0, []) == LexFrom([], |s|, [Number(v)]);
  }

  /** "3.14" is one number, worth 3.14. */
  lemma ExamplePi()
    ensures Lex("3.14") == Ok([Number(3.14)])
  {
    assert ScanOne("3.14") == Emit(Number(3.14), 4) by {
      DecimalLiteral("3", "14", "");
      assert "3" + "." + "14" + "" == "3.14";
      assert NaturalValue("3") == 3 by { assert "3"[..0] == ""; }
      assert NaturalValue("14") == 14 by { assert "14"[..1] == "1" && "1"[..0] == ""; }
      assert Pow10(2) == 100;
    }
    LexOneNumber("3.14", 3.14);
  }

  /** ".5" is 0.5: strtod needs no digit before the point. */
  lemma ExampleLeadingPoint()
    ensures Lex(".5") == Ok([Number(0.5)])
  {
    assert ScanOne(".5") == Emit(Number(0.5), 2) by {
      DecimalLiteral("", "5", "");
      assert "" + "." + "5" + "" == ".5";
      assert NaturalValue("5") == 5 by { assert "5"[..0] == ""; }
      assert Pow10(1) == 10;
    }
    LexOneNumber(".5", 0.5);
  }

  /** "1." is 1: strtod needs no digit after the point, and takes the point
      along. */
  lemma ExampleTrailingPoint()
    ensures Lex("1.") == Ok([Number(1.0)])
  {
    assert ScanOne("1.") == Emit(Number(1.0), 2) by {
      DecimalLiteral("1", "", "");
      assert "1" + "." + "" + "" == "1.";
      assert NaturalValue("1") == 1 by { assert "1"[..0] == ""; }
    }
    LexOneNumber("1.", 1.0);
  }
}
