/** CNY amounts: which strings are amounts, the canonical form, and the value it stands for. */
module SkuAmount {
  import opened SkuCore

  predicate Digits(s: string) { forall i | 0 <= i < |s| :: '0' <= s[i] <= '9' }

  function DotAt(s: string): (d: nat)
    ensures d <= |s| && (d < |s| ==> s[d] == '.') && forall i | 0 <= i < d :: s[i] != '.'
  {
    if s == [] || s[0] == '.' then 0 else 1 + DotAt(s[1..])
  }

  function Whole(s: string): string { s[..DotAt(s)] }

  function Fraction(s: string): string { if DotAt(s) < |s| then s[DotAt(s) + 1..] else "" }

  /** 0 or 1-16 digits without a leading zero, then optionally a point and one or two digits. */
  predicate ValidAmount(s: string) {
    && Digits(Whole(s)) && Digits(Fraction(s)) && 1 <= |Whole(s)| <= 16 && (Whole(s) == "0" || Whole(s)[0] != '0')
    && |Fraction(s)| <= 2 && (DotAt(s) < |s| ==> |Fraction(s)| >= 1)
  }

  function Padded(fraction: string): (r: string)
    ensures Digits(fraction) ==> Digits(r)
    ensures |fraction| <= 2 ==> |r| == 2
    decreases 2 - |fraction|
  {
    if |fraction| >= 2 then fraction else Padded(fraction + "0")
  }

  function ValidateCnyAmount(s: string): Result<string> {
    if ValidAmount(s) then Ok(Whole(s) + "." + Padded(Fraction(s))) else Err(ValidationFailed)
  }

  function Value(digits: string): nat
    requires Digits(digits)
  {
    if digits == [] then 0 else 10 * Value(digits[..|digits| - 1]) + (digits[|digits| - 1] - '0') as nat
  }

  /** The amount in hundredths. */
  function Cents(s: string): nat
    requires ValidAmount(s)
  {
    100 * Value(Whole(s)) + Value(Padded(Fraction(s)))
  }

  lemma DotIsFirst(whole: string, rest: string)
    requires Digits(whole)
    ensures DotAt(whole + "." + rest) == |whole|
  {
    var s := whole + "." + rest;
    assert s[|whole|] == '.';
    assert forall i | 0 <= i < |whole| :: s[i] == whole[i];
  }

  lemma CanonicalParts(s: string)
    requires ValidAmount(s)
    ensures var c := ValidateCnyAmount(s).value;
            Whole(c) == Whole(s) && Fraction(c) == Padded(Fraction(s)) && |Fraction(c)| == 2 && Digits(Fraction(c)) && ValidAmount(c)
  {
    DotIsFirst(Whole(s), Padded(Fraction(s)));
  }

  /** Normalizing an amount keeps its value, and normalizing again changes nothing. */
  lemma NormalizationKeepsTheValue(s: string)
    requires ValidAmount(s)
    ensures var c := ValidateCnyAmount(s).value; ValidAmount(c) && Cents(c) == Cents(s) && ValidateCnyAmount(c) == Ok(c)
  {
    CanonicalParts(s);
  }

  lemma {:induction false} ValueBounds(digits: string)
    requires Digits(digits)
    ensures digits != [] && digits[0] != '0' ==> Value(digits) >= 1
    ensures |digits| == 1 ==> Value(digits) < 10
    ensures |digits| == 2 ==> Value(digits) < 100
  {
    if |digits| > 0 { ValueBounds(digits[..|digits| - 1]); }
  }

  lemma {:induction false} ValueInjective(a: string, b: string)
    requires Digits(a) && Digits(b) && Value(a) == Value(b)
    requires |a| == |b| || ((a == [] || a[0] != '0') && (b == [] || b[0] != '0'))
    ensures a == b
  {
    ValueBounds(a);
    ValueBounds(b);
    if a != [] && b != [] {
      var m, n := |a| - 1, |b| - 1;
      assert (a[m] - '0') as nat == (b[n] - '0') as nat && Value(a[..m]) == Value(b[..n]);
      ValueInjective(a[..m], b[..n]);
      assert a == a[..m] + [a[m]] && b == b[..n] + [b[n]];
    }
  }

  /** Two amounts have the same canonical form exactly when they are worth the same. */
  lemma CanonicalFormIsTheValue(s: string, t: string)
    requires ValidAmount(s) && ValidAmount(t)
    ensures ValidateCnyAmount(s) == ValidateCnyAmount(t) <==> Cents(s) == Cents(t)
  {
    var fs, ft := Padded(Fraction(s)), Padded(Fraction(t));
    CanonicalParts(s);
    CanonicalParts(t);
    ValueBounds(fs);
    ValueBounds(ft);
    if Cents(s) == Cents(t) {
      assert Value(Whole(s)) == Value(Whole(t)) && Value(fs) == Value(ft);
      ValueInjective(fs, ft);
      ValueBounds(Whole(s));
      ValueBounds(Whole(t));
      ValueInjective(Whole(s), Whole(t));
    }
  }
}
