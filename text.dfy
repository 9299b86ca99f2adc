/**
 * Text operations the pipeline relies on: Python's whitespace, `str.strip`,
 * `str.split()[0]`, code-point string ordering, and a decimal number reader.
 */
module Text {
  import opened Wrappers
  import opened Seqs

  /** Python's `str.isspace` for a single character. */
  predicate IsSpace(c: char) {
    ('\U{9}' <= c <= '\U{D}') || ('\U{1C}' <= c <= '\U{20}') || c == '\U{85}' || c == '\U{A0}'
    || c == '\U{1680}' || ('\U{2000}' <= c <= '\U{200A}') || c == '\U{2028}' || c == '\U{2029}'
    || c == '\U{202F}' || c == '\U{205F}' || c == '\U{3000}'
  }

  predicate AllSpace(s: string) {
    forall i :: 0 <= i < |s| ==> IsSpace(s[i])
  }

  predicate NoSpace(s: string) {
    forall i :: 0 <= i < |s| ==> !IsSpace(s[i])
  }

  /** `s` holds at least one whitespace-delimited token. */
  predicate HasToken(s: string) {
    exists i :: 0 <= i < |s| && !IsSpace(s[i])
  }

  /** Length of the longest all-whitespace prefix. */
  function SpaceSpan(s: string): (k: nat)
    ensures k <= |s| && AllSpace(s[..k])
    ensures k < |s| ==> !IsSpace(s[k])
  {
    if s == [] || !IsSpace(s[0]) then 0
    else
      var k := 1 + SpaceSpan(s[1..]);
      assert s[..k] == [s[0]] + s[1..][..k - 1];
      k
  }

  /** Length of the longest whitespace-free prefix. */
  function WordSpan(s: string): (k: nat)
    ensures k <= |s| && NoSpace(s[..k])
    ensures k < |s| ==> IsSpace(s[k])
  {
    if s == [] || IsSpace(s[0]) then 0
    else
      var k := 1 + WordSpan(s[1..]);
      assert s[..k] == [s[0]] + s[1..][..k - 1];
      k
  }

  /** Length of the longest all-whitespace suffix. */
  function TrailingSpan(s: string): (k: nat)
    ensures k <= |s| && AllSpace(s[|s| - k..])
    ensures k < |s| ==> !IsSpace(s[|s| - k - 1])
  {
    if s == [] || !IsSpace(s[|s| - 1]) then 0
    else
      var init := s[..|s| - 1];
      var k := 1 + TrailingSpan(init);
      assert s[|s| - k..] == init[|init| - (k - 1)..] + [s[|s| - 1]];
      k
  }

  /**
   * Python's `str.strip()`: `s` with its surrounding whitespace removed, and
   * nothing else changed.
   */
  function Strip(s: string): (r: string)
    ensures r == [] || (!IsSpace(r[0]) && !IsSpace(r[|r| - 1]))
    ensures exists i, j :: 0 <= i <= j <= |s| && AllSpace(s[..i]) && r == s[i..j] && AllSpace(s[j..])
  {
    var i := SpaceSpan(s);
    var t := s[i..];
    var k := TrailingSpan(t);
    var j := i + |t| - k;
    assert s[j..] == t[|t| - k..];
    if i == |s| then
      assert AllSpace(s[..i]) && s[i..i] == [] && AllSpace(s[i..]);
      []
    else
      assert k < |t| by {
        assert !IsSpace(t[0]);
        assert forall j :: |t| - k <= j < |t| ==> t[|t| - k..][j - (|t| - k)] == t[j];
      }
      s[i..j]
  }

  /** A name without surrounding whitespace is left alone by `Strip`. */
  lemma StripUnpadded(s: string)
    requires s == [] || (!IsSpace(s[0]) && !IsSpace(s[|s| - 1]))
    ensures Strip(s) == s
  {
    if s != [] {
      assert SpaceSpan(s) == 0;
      assert TrailingSpan(s) == 0;
    }
  }

  /**
   * Python's `s.split()[0]`: the first maximal run of non-whitespace characters,
   * preceded only by whitespace and followed by whitespace or the end.
   */
  function FirstToken(s: string): (w: string)
    requires HasToken(s)
    ensures w != [] && NoSpace(w)
    ensures exists i :: 0 <= i && i + |w| <= |s| && AllSpace(s[..i]) && s[i..i + |w|] == w
                        && (i + |w| == |s| || IsSpace(s[i + |w|]))
  {
    var i := SpaceSpan(s);
    assert i < |s| by {
      var m :| 0 <= m < |s| && !IsSpace(s[m]);
      assert forall j :: 0 <= j < i ==> s[..i][j] == s[j];
    }
    var t := s[i..];
    var n := WordSpan(t);
    assert n > 0;
    assert s[i..i + n] == t[..n];
    t[..n]
  }

  /** Python's `<` on `str`: lexicographic order of code points. */
  predicate StrLt(a: string, b: string) {
    if a == [] then b != []
    else if b == [] then false
    else if a[0] != b[0] then a[0] < b[0]
    else StrLt(a[1..], b[1..])
  }

  lemma {:induction false} StrLtIrreflexive(a: string)
    ensures !StrLt(a, a)
  {
    if a != [] { StrLtIrreflexive(a[1..]); }
  }

  lemma {:induction false} StrLtTransitive(a: string, b: string, c: string)
    requires StrLt(a, b) && StrLt(b, c)
    ensures StrLt(a, c)
  {
    if a != [] && a[0] == b[0] && b[0] == c[0] {
      StrLtTransitive(a[1..], b[1..], c[1..]);
    }
  }

  lemma {:induction false} StrLtTotal(a: string, b: string)
    requires a != b
    ensures StrLt(a, b) || StrLt(b, a)
  {
    if a != [] && b != [] && a[0] == b[0] {
      assert a == [a[0]] + a[1..] && b == [b[0]] + b[1..];
      StrLtTotal(a[1..], b[1..]);
    }
  }

  /** Every occurrence of `c` removed (`str.replace(c, '')` with a literal pattern). */
  function RemoveAll(s: string, c: char): string
  {
    Filter(s, (x: char) => x != c)
  }

  // ---------------------------------------------------------------------------
  // Decimal numbers

  /** A decimal number `(-1)^negative * mantissa / 10^scale`. */
  datatype Decimal = Decimal(negative: bool, mantissa: nat, scale: nat) {
    /** The number is strictly greater than zero. */
    predicate Positive() { !negative && mantissa > 0 }
  }

  predicate IsDigit(c: char) { '0' <= c <= '9' }

  predicate AllDigits(s: string) {
    forall i :: 0 <= i < |s| ==> IsDigit(s[i])
  }

  /** Length of the longest all-digit prefix. */
  function DigitSpan(s: string): (k: nat)
    ensures k <= |s| && AllDigits(s[..k])
    ensures k < |s| ==> !IsDigit(s[k])
  {
    if s == [] || !IsDigit(s[0]) then 0
    else
      var k := 1 + DigitSpan(s[1..]);
      assert s[..k] == [s[0]] + s[1..][..k - 1];
      k
  }

  /** The value of a string of decimal digits. */
  function DigitsValue(ds: string): nat
    requires AllDigits(ds)
  {
    if ds == [] then 0
    else DigitsValue(ds[..|ds| - 1]) * 10 + (ds[|ds| - 1] as int - '0' as int)
  }

  /** Some character of `s` is a non-zero digit. */
  predicate HasNonZeroDigit(s: string) {
    exists i :: 0 <= i < |s| && '1' <= s[i] <= '9'
  }

  lemma HasNonZeroDigitAppend(a: string, b: string)
    ensures HasNonZeroDigit(a + b) <==> HasNonZeroDigit(a) || HasNonZeroDigit(b)
  {
    if HasNonZeroDigit(a + b) {
      var i :| 0 <= i < |a + b| && '1' <= (a + b)[i] <= '9';
      if i >= |a| { assert b[i - |a|] == (a + b)[i]; } else { assert a[i] == (a + b)[i]; }
    }
    if HasNonZeroDigit(a) {
      var i :| 0 <= i < |a| && '1' <= a[i] <= '9';
      assert (a + b)[i] == a[i];
    }
    if HasNonZeroDigit(b) {
      var i :| 0 <= i < |b| && '1' <= b[i] <= '9';
      assert (a + b)[|a| + i] == b[i];
    }
  }

  /** A digit string denotes a non-zero number exactly when one of its digits is non-zero. */
  lemma {:induction false} DigitsValuePositive(ds: string)
    requires AllDigits(ds)
    ensures DigitsValue(ds) > 0 <==> HasNonZeroDigit(ds)
  {
    if ds != [] {
      var init := ds[..|ds| - 1];
      DigitsValuePositive(init);
      assert ds == init + [ds[|ds| - 1]];
      HasNonZeroDigitAppend(init, [ds[|ds| - 1]]);
    }
  }

  /** Reads `digits [. digits]` with at least one digit, as (mantissa, scale). */
  function ParseUnsigned(b: string): Option<(nat, nat)>
  {
    var n := DigitSpan(b);
    var rest := b[n..];
    if rest == [] then
      if n == 0 then None else Some((DigitsValue(b[..n]), 0))
    else if rest[0] != '.' || !AllDigits(rest[1..]) || (n == 0 && |rest| == 1) then None
    else Some((DigitsValue(b[..n] + rest[1..]), |rest| - 1))
  }

  /** The unsigned reading is non-zero exactly when the text shows a non-zero digit. */
  lemma UnsignedPositive(b: string)
    requires ParseUnsigned(b).Some?
    ensures ParseUnsigned(b).value.0 > 0 <==> HasNonZeroDigit(b)
  {
    var n := DigitSpan(b);
    var ip, rest := b[..n], b[n..];
    assert b == ip + rest;
    HasNonZeroDigitAppend(ip, rest);
    if rest == [] {
      DigitsValuePositive(ip);
    } else {
      var frac := rest[1..];
      assert rest == [rest[0]] + frac;
      HasNonZeroDigitAppend([rest[0]], frac);
      assert !HasNonZeroDigit([rest[0]]);
      HasNonZeroDigitAppend(ip, frac);
      DigitsValuePositive(ip + frac);
    }
  }

  /**
   * Reads `[+|-] digits [. digits]` with at least one digit in all, the plain
   * decimal subset of what Python's `float` accepts.
   */
  function ParseDecimal(s: string): Option<Decimal>
  {
    var signed := |s| > 0 && (s[0] == '-' || s[0] == '+');
    var body := if signed then s[1..] else s;
    match ParseUnsigned(body)
    case None => None
    case Some(p) => Some(Decimal(|s| > 0 && s[0] == '-', p.0, p.1))
  }

  /**
   * A parsed number is positive exactly when the text has no leading minus sign
   * and shows a non-zero digit.
   */
  lemma ParsedPositive(s: string)
    requires ParseDecimal(s).Some?
    ensures s != []
    ensures ParseDecimal(s).value.Positive() <==> s[0] != '-' && HasNonZeroDigit(s)
  {
    var signed := |s| > 0 && (s[0] == '-' || s[0] == '+');
    var sign := if signed then s[..1] else [];
    var body := if signed then s[1..] else s;
    assert s == sign + body;
    assert !HasNonZeroDigit(sign);
    HasNonZeroDigitAppend(sign, body);
    UnsignedPositive(body);
  }
}
