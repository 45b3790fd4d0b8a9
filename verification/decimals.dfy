/** Decimal literals as the price patterns see them: `\d+\.\d+` with greedy digit runs. */
module Decimals {
  import opened Strings

  /** `\d+\.\d+` matches at `i`. */
  predicate FloatAt(s: string, i: nat) {
    var e := DigitEnd(s, i);
    e > i && e < |s| && s[e] == '.' && DigitEnd(s, e + 1) > e + 1
  }

  function FloatPred(s: string): nat -> bool { (i: nat) => FloatAt(s, i) }

  /** The text of that match: both digit runs are greedy. */
  function FloatText(s: string, i: nat): string
    requires FloatAt(s, i)
  {
    s[i..DigitEnd(s, DigitEnd(s, i) + 1)]
  }

  /** Digits, a dot, digits: a literal `Float.parseFloat` always accepts. */
  predicate IsDecimalLiteral(t: string) {
    var k := DigitEnd(t, 0);
    0 < k < |t| - 1 && t[k] == '.' && DigitEnd(t, k + 1) == |t|
  }

  lemma FloatTextIsLiteral(s: string, i: nat)
    requires FloatAt(s, i)
    ensures IsDecimalLiteral(FloatText(s, i))
  {
    var e := DigitEnd(s, i);
    var f := DigitEnd(s, e + 1);
    var t := FloatText(s, i);
    DigitEndOfSlice(s, i, f, 0);
    assert DigitEnd(t, 0) == e - i;
    DigitEndOfSlice(s, i, f, e - i + 1);
  }

  /** A digit run measured in a slice `s[i..f]` ends where it ends in `s`, capped at `f`. */
  lemma {:induction false} DigitEndOfSlice(s: string, i: nat, f: nat, k: nat)
    requires i <= f <= |s| && k <= f - i
    ensures DigitEnd(s[i..f], k) == if DigitEnd(s, i + k) <= f then DigitEnd(s, i + k) - i else f - i
    decreases f - i - k
  {
    if k < f - i && IsDigit(s[i + k]) {
      DigitEndOfSlice(s, i, f, k + 1);
    }
  }
}
