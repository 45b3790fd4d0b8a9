/**
 * The string operations of java.lang.String, java.lang.Integer and Python 2's str that the
 * extractors and scripts rely on, on strings of UTF-16 code units (`seq<char>`).
 */
module Strings {
  import opened Wrappers

  /** `Integer.MAX_VALUE`. */
  const MAX_INT: int := 0x7fff_ffff

  predicate IsDigit(c: char) { '0' <= c <= '9' }

  predicate AllDigits(s: string) { forall i :: 0 <= i < |s| ==> IsDigit(s[i]) }

  /** The characters `String.trim()` removes: every code unit up to U+0020. */
  predicate IsTrimmable(c: char) { c <= ' ' }

  /** `\s` of java.util.regex, `[ \t\n\x0B\f\r]`; also the set Python 2's `str.strip()` removes. */
  predicate IsSpace(c: char) {
    c == ' ' || c == '\t' || c == '\n' || c == '\U{0B}' || c == '\U{0C}' || c == '\r'
  }

  /** The line terminators that `.` does not match in java.util.regex (no DOTALL flag). */
  predicate IsLineTerminator(c: char) {
    c == '\n' || c == '\r' || c == '\U{85}' || c == '\U{2028}' || c == '\U{2029}'
  }

  /** No line terminator in `s[i..j]` (positions past the end are ignored). */
  predicate LineFree(s: string, i: nat, j: nat) {
    forall k :: i <= k < j && k < |s| ==> !IsLineTerminator(s[k])
  }

  // ---------------------------------------------------------------- trimming

  function StripStart(s: string, drop: char -> bool): (r: string)
    ensures |r| <= |s|
    ensures forall i :: 0 <= i < |s| - |r| ==> drop(s[i])
    ensures r == [] || !drop(r[0])
  {
    if s != [] && drop(s[0]) then StripStart(s[1..], drop) else s
  }

  function StripEnd(s: string, drop: char -> bool): (r: string)
    ensures |r| <= |s|
    ensures forall i :: |r| <= i < |s| ==> drop(s[i])
    ensures r == [] || !drop(r[|r| - 1])
  {
    if s != [] && drop(s[|s| - 1]) then StripEnd(s[..|s| - 1], drop) else s
  }

  /** What `StripStart` keeps is a suffix of its input. */
  lemma {:induction false} StripStartIsSuffix(s: string, drop: char -> bool)
    ensures StripStart(s, drop) == s[|s| - |StripStart(s, drop)|..]
  {
    if s != [] && drop(s[0]) {
      StripStartIsSuffix(s[1..], drop);
    }
  }

  /** What `StripEnd` keeps is a prefix of its input. */
  lemma {:induction false} StripEndIsPrefix(s: string, drop: char -> bool)
    ensures StripEnd(s, drop) == s[..|StripEnd(s, drop)|]
  {
    if s != [] && drop(s[|s| - 1]) {
      StripEndIsPrefix(s[..|s| - 1], drop);
    }
  }

  /** `r` is the slice of `s` at `a`, and `drop` accepts every character of `s` around it. */
  predicate StrippedSlice(s: string, drop: char -> bool, r: string, a: nat) {
    && a + |r| <= |s| && r == s[a..a + |r|]
    && (forall i :: 0 <= i < a ==> drop(s[i]))
    && (forall i :: a + |r| <= i < |s| ==> drop(s[i]))
  }

  /** Removes the longest prefix and suffix made of characters `drop` accepts. */
  function Strip(s: string, drop: char -> bool): (r: string)
    ensures |r| <= |s|
    ensures r == [] || (!drop(r[0]) && !drop(r[|r| - 1]))
  {
    var t := StripStart(s, drop);
    StripEndIsPrefix(t, drop);
    StripEnd(t, drop)
  }

  /**
   * What stripping keeps is a slice of the input with nothing but dropped characters around
   * it; with `Strip`'s own contract (the slice neither starts nor ends with one) this is the
   * longest such slice.
   */
  lemma StripIsSlice(s: string, drop: char -> bool)
    ensures exists a: nat :: StrippedSlice(s, drop, Strip(s, drop), a)
  {
    var t := StripStart(s, drop);
    StripStartIsSuffix(s, drop);
    StripEndIsPrefix(t, drop);
    var r := StripEnd(t, drop);
    var a := |s| - |t|;
    assert r == s[a..a + |r|];
    forall i | a + |r| <= i < |s| ensures drop(s[i]) {
      assert s[i] == t[i - a];
    }
    assert Strip(s, drop) == r;
    assert StrippedSlice(s, drop, r, a);
  }

  /** Stripping keeps only characters of the input. */
  lemma StripKeeps(s: string, drop: char -> bool)
    ensures forall c :: c in Strip(s, drop) ==> c in s
  {
    var t := StripStart(s, drop);
    StripStartIsSuffix(s, drop);
    StripEndIsPrefix(t, drop);
    assert forall c :: c in t ==> c in s;
  }

  /** `String.trim()`. */
  function Trim(s: string): string { Strip(s, IsTrimmable) }

  /** Trimming the empty string gives the empty string. */
  lemma TrimEmpty()
    ensures Trim("") == ""
  {
    assert StripStart("", IsTrimmable) == "";
  }

  /** Python 2 `str.strip()`. */
  function PyStrip(s: string): string { Strip(s, IsSpace) }

  // ---------------------------------------------------------------- comparison

  /** Case folding of `equalsIgnoreCase`, restricted to ASCII letters. */
  function Lower(c: char): char {
    if 'A' <= c <= 'Z' then (c as int + 32) as char else c
  }

  /** `a.equalsIgnoreCase(b)` for non-null `a` and `b`. */
  predicate EqualsIgnoreCase(a: string, b: string) {
    |a| == |b| && forall i :: 0 <= i < |a| ==> Lower(a[i]) == Lower(b[i])
  }

  /** `a.equalsIgnoreCase(b)` where `b` may be null: null never matches. */
  predicate EqualsIgnoreCaseOpt(a: string, b: Option<string>) {
    b.Some? && EqualsIgnoreCase(a, b.value)
  }

  predicate StartsWith(s: string, p: string) { |p| <= |s| && s[..|p|] == p }

  predicate EndsWith(s: string, p: string) { |p| <= |s| && s[|s| - |p|..] == p }

  /** `p` occurs in `s` at position `i`. */
  predicate HasAt(s: string, i: nat, p: string) { i + |p| <= |s| && s[i..i + |p|] == p }

  // ---------------------------------------------------------------- searching

  /** `s.indexOf(p, from)` (Java) and `s.find(p, from)` (Python): the least occurrence at or after `from`, or -1. */
  function IndexOf(s: string, p: string, from: nat): (r: int)
    ensures r == -1 || (from <= r && HasAt(s, r, p))
    ensures forall i :: from <= i && (r == -1 || i < r) ==> !HasAt(s, i, p)
    decreases |s| - from
  {
    if from + |p| > |s| then -1
    else if HasAt(s, from, p) then from
    else IndexOf(s, p, from + 1)
  }

  /** `s.lastIndexOf(c)`: the greatest index holding `c`, or -1. */
  function LastIndexOfChar(s: string, c: char): (r: int)
    ensures -1 <= r < |s|
    ensures r >= 0 ==> s[r] == c
    ensures forall i :: r < i < |s| ==> s[i] != c
  {
    if s == [] then -1
    else if s[|s| - 1] == c then |s| - 1
    else LastIndexOfChar(s[..|s| - 1], c)
  }

  /** The end of the longest run of ASCII digits starting at `i` (what a greedy `\d+` consumes). */
  function DigitEnd(s: string, i: nat): (e: nat)
    ensures i <= e && (i <= |s| ==> e <= |s|)
    ensures forall k :: i <= k < e ==> k < |s| && IsDigit(s[k])
    ensures e < |s| ==> !IsDigit(s[e])
    decreases |s| - i
  {
    if i < |s| && IsDigit(s[i]) then DigitEnd(s, i + 1) else i
  }

  /** `s.replace(a, b)` for characters. */
  function ReplaceChar(s: string, a: char, b: char): (r: string)
    ensures |r| == |s|
    ensures forall i :: 0 <= i < |s| ==> r[i] == (if s[i] == a then b else s[i])
  {
    if s == [] then [] else ReplaceChar(s[..|s| - 1], a, b) + [if s[|s| - 1] == a then b else s[|s| - 1]]
  }

  // ---------------------------------------------------------------- splitting on \s+

  /** Index of the first `\s` character at or after `from`, or `|s|`. */
  function NextSpace(s: string, from: nat): (k: nat)
    requires from <= |s|
    ensures from <= k <= |s|
    ensures forall i :: from <= i < k ==> !IsSpace(s[i])
    ensures k < |s| ==> IsSpace(s[k])
    decreases |s| - from
  {
    if from == |s| || IsSpace(s[from]) then from else NextSpace(s, from + 1)
  }

  /** Index of the first non-`\s` character at or after `from`, or `|s|`. */
  function SpaceRunEnd(s: string, from: nat): (k: nat)
    requires from <= |s|
    ensures from <= k <= |s|
    ensures forall i :: from <= i < k ==> IsSpace(s[i])
    ensures k < |s| ==> !IsSpace(s[k])
    decreases |s| - from
  {
    if from == |s| || !IsSpace(s[from]) then from else SpaceRunEnd(s, from + 1)
  }

  /** The pieces between maximal `\s` runs, keeping a leading and a trailing empty piece. */
  function Pieces(s: string): seq<string>
    decreases |s|
  {
    var i := NextSpace(s, 0);
    if i == |s| then [s] else [s[..i]] + Pieces(s[SpaceRunEnd(s, i)..])
  }

  function DropTrailingEmpty(ps: seq<string>): seq<string> {
    if ps != [] && ps[|ps| - 1] == [] then DropTrailingEmpty(ps[..|ps| - 1]) else ps
  }

  /**
   * `s.split("\\s+")`: the input itself when nothing matches, otherwise the pieces
   * around the matches with trailing empty strings removed.
   */
  function SplitWhitespace(s: string): seq<string> {
    if NextSpace(s, 0) == |s| then [s] else DropTrailingEmpty(Pieces(s))
  }

  /** Index of the last `\s` character of `s`, or -1. */
  function LastSpace(s: string): (r: int)
    ensures -1 <= r < |s|
    ensures r >= 0 ==> IsSpace(s[r])
    ensures forall i :: r < i < |s| ==> !IsSpace(s[i])
  {
    if s == [] then -1 else if IsSpace(s[|s| - 1]) then |s| - 1 else LastSpace(s[..|s| - 1])
  }

  /**
   * On a string without a trailing `\s`, the pieces are at least two exactly when the string
   * holds a `\s` character, and the last one is the text after the last such character.
   */
  lemma {:induction false} PiecesLast(s: string)
    requires s == [] || !IsSpace(s[|s| - 1])
    ensures var ps := Pieces(s);
      && |ps| >= 1
      && (|ps| >= 2 <==> LastSpace(s) >= 0)
      && ps[|ps| - 1] == s[LastSpace(s) + 1..]
      && (s != [] ==> ps[|ps| - 1] != [])
    decreases |s|
  {
    var i := NextSpace(s, 0);
    if i == |s| {
      assert forall k :: 0 <= k < |s| ==> !IsSpace(s[k]);
      LastSpaceNone(s);
    } else {
      var j := SpaceRunEnd(s, i);
      var t := s[j..];
      assert j < |s|;
      PiecesLast(t);
      LastSpaceOfSuffix(s, j);
    }
  }

  lemma {:induction false} LastSpaceNone(s: string)
    requires forall k :: 0 <= k < |s| ==> !IsSpace(s[k])
    ensures LastSpace(s) == -1
  {
    if s != [] {
      LastSpaceNone(s[..|s| - 1]);
    }
  }

  /** When `s[j-1]` is a `\s` character, the last one of `s` is found in `s[j..]` or is `j-1`. */
  lemma LastSpaceOfSuffix(s: string, j: nat)
    requires 0 < j < |s| && IsSpace(s[j - 1])
    ensures LastSpace(s) == (if LastSpace(s[j..]) >= 0 then j + LastSpace(s[j..]) else j - 1)
  {
    var t := s[j..];
    var r := LastSpace(t);
    var q := LastSpace(s);
    if r >= 0 {
      assert IsSpace(s[j + r]);
      assert forall i :: j + r < i < |s| ==> !IsSpace(s[i]) by {
        forall i | j + r < i < |s| ensures !IsSpace(s[i]) { assert s[i] == t[i - j]; }
      }
      assert q >= j + r;
    } else {
      assert forall i :: j - 1 < i < |s| ==> !IsSpace(s[i]) by {
        forall i | j - 1 < i < |s| ensures !IsSpace(s[i]) { assert s[i] == t[i - j]; }
      }
    }
  }

  /**
   * What the J.Crew price guard reads from `split("\\s+")` of a trimmed string: it has at least
   * two tokens iff the string holds a `\s` character, and then the last token is the text after
   * the last one.
   */
  lemma SplitTrimmed(t: string)
    requires t == [] || !IsTrimmable(t[|t| - 1])
    ensures var toks := SplitWhitespace(t);
      && |toks| >= 1
      && (|toks| >= 2 <==> LastSpace(t) >= 0)
      && toks[|toks| - 1] == t[LastSpace(t) + 1..]
  {
    assert t == [] || !IsTrimmable(t[|t| - 1]);
    PiecesLast(t);
    if NextSpace(t, 0) == |t| {
      LastSpaceNone(t);
    } else {
      var ps := Pieces(t);
      assert ps[|ps| - 1] != [];
      assert DropTrailingEmpty(ps) == ps;
    }
  }

  // ---------------------------------------------------------------- integers

  /** The value of a string of decimal digits. */
  function DecimalValue(ds: string): nat
    requires AllDigits(ds)
  {
    if ds == [] then 0 else DecimalValue(ds[..|ds| - 1]) * 10 + (ds[|ds| - 1] as int - '0' as int)
  }

  /**
   * `Integer.parseInt(s)` on the strings it is given here (`\d+` groups): the value when it fits
   * in an `int`, `None` where the source throws NumberFormatException.
   */
  function ParseInt(s: string): Option<int> {
    if |s| > 0 && AllDigits(s) && DecimalValue(s) <= MAX_INT then Some(DecimalValue(s)) else None
  }

  function DigitChar(d: nat): char
    requires d < 10
  {
    ('0' as int + d) as char
  }

  /** `Integer.toString(n)` for `n >= 0`: decimal digits without leading zeros. */
  function IntToString(n: nat): string
  {
    if n < 10 then [DigitChar(n)] else IntToString(n / 10) + [DigitChar(n % 10)]
  }

  /** A non-empty digit string with no leading zero, except "0" itself. */
  predicate Canonical(ds: string) {
    |ds| > 0 && AllDigits(ds) && (ds[0] == '0' ==> |ds| == 1)
  }

  /** `Integer.toString` yields the canonical digits of the number, and they read back as it. */
  lemma {:induction false} IntToStringCanonical(n: nat)
    ensures Canonical(IntToString(n))
    ensures DecimalValue(IntToString(n)) == n
  {
    if n >= 10 {
      IntToStringCanonical(n / 10);
      var p := IntToString(n / 10);
      assert IntToString(n)[..|IntToString(n)| - 1] == p;
    }
  }

  /** Round trip: `Integer.parseInt(Integer.toString(n)) == n` for every non-negative int. */
  lemma ParseIntToString(n: nat)
    requires n <= MAX_INT
    ensures ParseInt(IntToString(n)) == Some(n)
  {
    IntToStringCanonical(n);
  }

  /** Each value has one canonical form. */
  lemma {:induction false} CanonicalUnique(a: string, b: string)
    requires Canonical(a) && Canonical(b) && DecimalValue(a) == DecimalValue(b)
    ensures a == b
    decreases |a| + |b|
  {
    var va, vb := DecimalValue(a), DecimalValue(b);
    if |a| == 1 && |b| == 1 {
    } else if |a| == 1 {
      CanonicalLarge(b);
    } else if |b| == 1 {
      CanonicalLarge(a);
    } else {
      var a', b' := a[..|a| - 1], b[..|b| - 1];
      assert Canonical(a') && Canonical(b');
      assert DecimalValue(a') == va / 10 && DecimalValue(b') == vb / 10;
      CanonicalUnique(a', b');
      assert a == a' + [a[|a| - 1]] && b == b' + [b[|b| - 1]];
    }
  }

  /** A canonical string of two or more digits denotes a value of at least 10. */
  lemma {:induction false} CanonicalLarge(a: string)
    requires Canonical(a) && |a| >= 2
    ensures DecimalValue(a) >= 10
    decreases |a|
  {
    var a' := a[..|a| - 1];
    assert Canonical(a');
    if |a'| >= 2 {
      CanonicalLarge(a');
    } else {
      assert a'[0] == a[0];
    }
  }

  /**
   * `Integer.toString(Integer.parseInt(ds))` drops leading zeros and nothing else: it is the one
   * canonical digit string with the value of `ds`.
   */
  lemma ReprintIsCanonical(ds: string, c: string)
    requires AllDigits(ds) && |ds| > 0 && Canonical(c) && DecimalValue(c) == DecimalValue(ds)
    ensures IntToString(DecimalValue(ds)) == c
  {
    IntToStringCanonical(DecimalValue(ds));
    CanonicalUnique(IntToString(DecimalValue(ds)), c);
  }
}
