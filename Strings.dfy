/**
 * The JavaScript string built-ins the editor relies on: `trim`, the `\s`
 * character class, `startsWith`, ASCII `toLowerCase`/`toUpperCase`, the
 * decimal rendering of a millisecond timestamp, `replace(/\s+/g, '-')`,
 * and the order used for sorting (lexicographic order of code points).
 */
module Strings {

  /** ECMAScript WhiteSpace and LineTerminator code points: what `trim` strips and `\s` matches. */
  predicate IsWhitespace(c: char) {
    c == '\t' || c == '\n' || c == '\U{B}' || c == '\U{C}' || c == '\r' || c == ' ' ||
    c == '\U{A0}' || c == '\U{1680}' || ('\U{2000}' <= c <= '\U{200A}') ||
    c == '\U{2028}' || c == '\U{2029}' || c == '\U{202F}' || c == '\U{205F}' ||
    c == '\U{3000}' || c == '\U{FEFF}'
  }

  predicate AllWhitespace(s: string) {
    forall i :: 0 <= i < |s| ==> IsWhitespace(s[i])
  }

  predicate NoWhitespace(s: string) {
    forall i :: 0 <= i < |s| ==> !IsWhitespace(s[i])
  }

  /** Drops the leading white space (see `TrimStartShape`). */
  function TrimStart(s: string): string
    decreases |s|
  {
    if s != [] && IsWhitespace(s[0]) then TrimStart(s[1..]) else s
  }

  /** What `TrimStart` leaves is a suffix that starts with a non-blank character; only white space was dropped. */
  lemma {:induction false} TrimStartShape(s: string)
    ensures var r := TrimStart(s);
      && |r| <= |s| && r == s[|s| - |r|..]
      && AllWhitespace(s[..|s| - |r|])
      && (r == [] || !IsWhitespace(r[0]))
      && (s != [] && IsWhitespace(s[0]) ==> |r| < |s|)
    decreases |s|
  {
    if s != [] && IsWhitespace(s[0]) {
      TrimStartShape(s[1..]);
      var r := TrimStart(s[1..]);
      assert s[1..][..|s| - 1 - |r|] == s[1..|s| - |r|];
    }
  }

  /** Drops the trailing white space (see `TrimEndShape`). */
  function TrimEnd(s: string): string
    decreases |s|
  {
    if s != [] && IsWhitespace(s[|s| - 1]) then TrimEnd(s[..|s| - 1]) else s
  }

  /** What `TrimEnd` leaves is a prefix that ends with a non-blank character; only white space was dropped. */
  lemma {:induction false} TrimEndShape(s: string)
    ensures var r := TrimEnd(s);
      && |r| <= |s| && r == s[..|r|]
      && AllWhitespace(s[|r|..])
      && (r == [] || !IsWhitespace(r[|r| - 1]))
    decreases |s|
  {
    if s != [] && IsWhitespace(s[|s| - 1]) {
      var init := s[..|s| - 1];
      TrimEndShape(init);
      var r := TrimEnd(init);
      assert TrimEnd(s) == r;
      assert init[..|r|] == s[..|r|];
      forall i | |r| <= i < |s|
        ensures IsWhitespace(s[i])
      {
        if i < |s| - 1 {
          assert s[i] == init[|r|..][i - |r|];
        }
      }
      assert forall i :: 0 <= i < |s[|r|..]| ==> s[|r|..][i] == s[|r| + i];
    }
  }

  /** `String.prototype.trim`. */
  function Trim(s: string): string {
    TrimEnd(TrimStart(s))
  }

  /** The editor's `!s.trim()` test: the trimmed string is empty. */
  predicate IsBlank(s: string) {
    Trim(s) == []
  }

  /** A string is blank exactly when every one of its characters is white space. */
  lemma BlankIffAllWhitespace(s: string)
    ensures IsBlank(s) <==> AllWhitespace(s)
  {
    TrimStartShape(s);
    var t := TrimStart(s);
    TrimEndShape(t);
    assert t == [] || t[0] == s[|s| - |t|];
    if IsBlank(s) {
      assert AllWhitespace(t[0..]);
      assert t == [];
      assert s[..|s|] == s;
    }
  }

  /** `s.startsWith(prefix)`. */
  predicate StartsWith(s: string, prefix: string) {
    |prefix| <= |s| && s[..|prefix|] == prefix
  }

  /** A string that starts with a non-blank character is not blank. */
  lemma StartsWithNonBlankIsNotBlank(s: string, c: char)
    requires StartsWith(s, [c]) && !IsWhitespace(c)
    ensures !IsBlank(s)
  {
    BlankIffAllWhitespace(s);
    assert s[0] == c;
  }

  function LowerChar(c: char): char {
    if 'A' <= c <= 'Z' then (c as int + 32) as char else c
  }

  function UpperChar(c: char): char {
    if 'a' <= c <= 'z' then (c as int - 32) as char else c
  }

  /** `toLowerCase`, on ASCII letters. */
  function ToLower(s: string): (r: string)
    ensures |r| == |s|
  {
    seq(|s|, i requires 0 <= i < |s| => LowerChar(s[i]))
  }

  /** `toUpperCase`, on ASCII letters. */
  function ToUpper(s: string): (r: string)
    ensures |r| == |s|
  {
    seq(|s|, i requires 0 <= i < |s| => UpperChar(s[i]))
  }

  /** Case mapping works character by character, so it distributes over concatenation. */
  lemma LowerConcat(a: string, b: string)
    ensures ToLower(a + b) == ToLower(a) + ToLower(b)
  {
    assert forall i :: 0 <= i < |a + b| ==> ToLower(a + b)[i] == (ToLower(a) + ToLower(b))[i];
  }

  lemma LowerOfHyphen()
    ensures ToLower("-") == "-"
  {
    assert ToLower("-")[0] == '-';
  }

  /** Lower-casing an upper-cased string gives the lower-cased original. */
  lemma LowerOfUpper(s: string)
    ensures ToLower(ToUpper(s)) == ToLower(s)
  {
  }

  lemma LowerIdempotent(s: string)
    ensures ToLower(ToLower(s)) == ToLower(s)
  {
  }

  /** A string with no upper-case ASCII letter is its own lower-case form. */
  lemma LowerOfLowerCase(s: string)
    requires forall i :: 0 <= i < |s| ==> !('A' <= s[i] <= 'Z')
    ensures ToLower(s) == s
  {
  }

  lemma LowerKeepsNoWhitespace(s: string)
    requires NoWhitespace(s)
    ensures NoWhitespace(ToLower(s))
  {
  }

  function DigitChar(d: nat): char
    requires d < 10
  {
    ('0' as int + d) as char
  }

  predicate IsDigit(c: char) {
    '0' <= c <= '9'
  }

  /** The decimal rendering of a non-negative integer, as in a template literal. */
  function DecimalString(n: nat): (r: string)
    ensures |r| > 0
    ensures forall i :: 0 <= i < |r| ==> IsDigit(r[i])
  {
    if n < 10 then [DigitChar(n)] else DecimalString(n / 10) + [DigitChar(n % 10)]
  }

  /** The number a string of decimal digits denotes. */
  function DigitsValue(s: string): nat
    requires forall i :: 0 <= i < |s| ==> IsDigit(s[i])
  {
    if s == [] then 0
    else
      var last := s[|s| - 1];
      assert IsDigit(last);
      DigitsValue(s[..|s| - 1]) * 10 + (last as int - '0' as int)
  }

  /** Reading back the decimal rendering gives the number: distinct timestamps give distinct names. */
  lemma {:induction false} DecimalRoundTrip(n: nat)
    ensures DigitsValue(DecimalString(n)) == n
  {
    var r := DecimalString(n);
    if n >= 10 {
      DecimalRoundTrip(n / 10);
      assert r[..|r| - 1] == DecimalString(n / 10);
    }
  }

  lemma DecimalStringInjective(m: nat, n: nat)
    requires DecimalString(m) == DecimalString(n)
    ensures m == n
  {
    DecimalRoundTrip(m);
    DecimalRoundTrip(n);
  }

  /** `s.replace(/\s+/g, '-')`: every maximal run of white space becomes one hyphen. */
  function HyphenateWhitespace(s: string): (r: string)
    ensures |r| <= |s|
    decreases |s|
  {
    if s == [] then []
    else if IsWhitespace(s[0]) then
      TrimStartShape(s);
      "-" + HyphenateWhitespace(TrimStart(s))
    else
      [s[0]] + HyphenateWhitespace(s[1..])
  }

  /** The result holds no white space, and a string without white space is left as it is. */
  lemma {:induction false} HyphenateShape(s: string)
    ensures NoWhitespace(HyphenateWhitespace(s))
    ensures NoWhitespace(s) ==> HyphenateWhitespace(s) == s
    decreases |s|
  {
    if s != [] {
      if IsWhitespace(s[0]) {
        TrimStartShape(s);
        HyphenateShape(TrimStart(s));
        assert !IsWhitespace('-');
      } else {
        HyphenateShape(s[1..]);
        assert NoWhitespace(s) ==> NoWhitespace(s[1..]);
      }
    }
  }

  /** Trimming the front of a white-space run followed by `v` leaves `v`, when `v` does not itself start with white space. */
  lemma {:induction false} TrimStartOfRun(w: string, v: string)
    requires AllWhitespace(w)
    requires v == [] || !IsWhitespace(v[0])
    ensures TrimStart(w + v) == v
    decreases |w|
  {
    if w != [] {
      assert (w + v)[1..] == w[1..] + v;
      TrimStartOfRun(w[1..], v);
    } else {
      assert w + v == v;
    }
  }

  /** Trimming the front of `u + x` stops inside `u` when `u` ends with a non-blank character. */
  lemma {:induction false} TrimStartAppend(u: string, x: string)
    requires u != [] && !IsWhitespace(u[|u| - 1])
    ensures TrimStart(u + x) == TrimStart(u) + x
    decreases |u|
  {
    if IsWhitespace(u[0]) {
      assert |u| > 1;
      assert (u + x)[1..] == u[1..] + x;
      TrimStartAppend(u[1..], x);
    }
  }

  /**
   * The run law of `replace(/\s+/g, '-')`: a maximal run `w` of white space
   * between `u` and `v` becomes exactly one '-', and the two sides are
   * replaced on their own.
   */
  lemma HyphenateRun(u: string, w: string, v: string)
    requires u == [] || !IsWhitespace(u[|u| - 1])
    requires w != [] && AllWhitespace(w)
    requires v == [] || !IsWhitespace(v[0])
    ensures HyphenateWhitespace(u + w + v) == HyphenateWhitespace(u) + "-" + HyphenateWhitespace(v)
  {
    TrimStartOfRun(w, v);
    HyphenateSplit(u, w + v);
    assert u + w + v == u + (w + v);
  }

  /** `u + x` where `x` opens with white space: the run at the seam becomes one '-'. */
  lemma {:induction false} HyphenateSplit(u: string, x: string)
    requires u == [] || !IsWhitespace(u[|u| - 1])
    requires x != [] && IsWhitespace(x[0])
    ensures HyphenateWhitespace(u + x) == HyphenateWhitespace(u) + "-" + HyphenateWhitespace(TrimStart(x))
    decreases |u|
  {
    var tail := HyphenateWhitespace(TrimStart(x));
    if u == [] {
      assert u + x == x;
      HyphenateLeadingSpace(x);
    } else if IsWhitespace(u[0]) {
      TrimStartShape(u);
      var t := TrimStart(u);
      assert t != [] && t[|t| - 1] == u[|u| - 1];
      TrimStartAppend(u, x);
      HyphenateSplit(t, x);
      RunStepSpace(u, t, x, tail);
    } else {
      HyphenateSplit(u[1..], x);
      RunStepCons(u[0], u[1..], x, tail);
      SplitHead(u, x);
    }
  }

  /** A non-empty string is its head followed by its tail, also in front of `x`. */
  lemma SplitHead(u: string, x: string)
    requires u != []
    ensures u == [u[0]] + u[1..] && u + x == [u[0]] + (u[1..] + x)
  {
    assert u == [u[0]] + u[1..];
  }

  /** The inductive step of `HyphenateRun` for a leading white-space run. */
  lemma RunStepSpace(u: string, t: string, x: string, tail: string)
    requires u != [] && IsWhitespace(u[0])
    requires TrimStart(u) == t && TrimStart(u + x) == t + x
    requires HyphenateWhitespace(t + x) == HyphenateWhitespace(t) + "-" + tail
    ensures HyphenateWhitespace(u + x) == HyphenateWhitespace(u) + "-" + tail
  {
    assert (u + x)[0] == u[0];
    HyphenateLeadingSpace(u + x);
    HyphenateLeadingSpace(u);
  }

  /** The inductive step of `HyphenateRun` for a leading non-blank character. */
  lemma RunStepCons(c: char, u: string, x: string, tail: string)
    requires !IsWhitespace(c)
    requires HyphenateWhitespace(u + x) == HyphenateWhitespace(u) + "-" + tail
    ensures HyphenateWhitespace([c] + (u + x)) == HyphenateWhitespace([c] + u) + "-" + tail
  {
    var a := HyphenateWhitespace(u);
    HyphenateCons(c, u + x);
    HyphenateCons(c, u);
    assert [c] + (a + "-" + tail) == [c] + a + "-" + tail;
  }

  /** One step of `HyphenateWhitespace` on a leading non-blank character. */
  lemma HyphenateCons(c: char, x: string)
    requires !IsWhitespace(c)
    ensures HyphenateWhitespace([c] + x) == [c] + HyphenateWhitespace(x)
  {
    assert ([c] + x)[1..] == x;
  }

  /** One step of `HyphenateWhitespace` on a leading white-space run. */
  lemma HyphenateLeadingSpace(s: string)
    requires s != [] && IsWhitespace(s[0])
    ensures HyphenateWhitespace(s) == "-" + HyphenateWhitespace(TrimStart(s))
  {
  }

  /** A non-empty string of white space only becomes a single '-'. */
  lemma AllWhitespaceHyphenates(w: string)
    requires w != [] && AllWhitespace(w)
    ensures HyphenateWhitespace(w) == "-"
  {
    HyphenateRun([], w, []);
    assert [] + w + [] == w;
  }

  /** Lexicographic order of code points (a Dafny `char` is a Unicode scalar value): `a` sorts strictly before `b`. */
  predicate Below(a: string, b: string)
    decreases |a|
  {
    |b| > 0 && (|a| == 0 || a[0] < b[0] || (a[0] == b[0] && Below(a[1..], b[1..])))
  }

  lemma {:induction false} BelowIrreflexive(a: string)
    ensures !Below(a, a)
    decreases |a|
  {
    if |a| > 0 {
      BelowIrreflexive(a[1..]);
    }
  }

  lemma {:induction false} BelowTransitive(a: string, b: string, c: string)
    requires Below(a, b) && Below(b, c)
    ensures Below(a, c)
    decreases |a|
  {
    if |a| > 0 && a[0] == b[0] && b[0] == c[0] {
      BelowTransitive(a[1..], b[1..], c[1..]);
    }
  }

  /** Any two distinct strings are ordered one way or the other. */
  lemma {:induction false} BelowTotal(a: string, b: string)
    ensures a == b || Below(a, b) || Below(b, a)
    decreases |a|
  {
    if |a| > 0 && |b| > 0 && a[0] == b[0] {
      BelowTotal(a[1..], b[1..]);
      if a[1..] == b[1..] {
        assert a == [a[0]] + a[1..] && b == [b[0]] + b[1..];
      }
    }
  }

  lemma BelowAsymmetric(a: string, b: string)
    requires Below(a, b)
    ensures !Below(b, a)
  {
    if Below(b, a) {
      BelowTransitive(a, b, a);
      BelowIrreflexive(a);
    }
  }
}
