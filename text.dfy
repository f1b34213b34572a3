/**
 * Character classes and the string operations that the log scanner relies on:
 * Python's `str.strip()`, the `in` substring test, `str.startswith`, and the
 * base-10 `int()` conversion, all restricted to the ASCII range.
 */
module Text {

  import opened Wrappers

  /** Python's `str.isspace()` on ASCII: tab, line feed, vertical tab, form feed,
      carriage return, the separators 0x1C-0x1F, and space. */
  predicate IsSpace(c: char) {
    ('\t' <= c <= '\r') || ('\U{1C}' <= c <= '\U{1F}') || c == ' '
  }

  /** An ASCII decimal digit. */
  predicate IsDigit(c: char) {
    '0' <= c <= '9'
  }

  predicate AllDigits(s: string) {
    forall k :: 0 <= k < |s| ==> IsDigit(s[k])
  }

  predicate AllSpaces(s: string) {
    forall k :: 0 <= k < |s| ==> IsSpace(s[k])
  }

  // ---------------------------------------------------------------- strip

  /** Length of the longest whitespace prefix of `s`. */
  function SpaceRun(s: string): (n: nat)
    ensures n <= |s| && forall k :: 0 <= k < n ==> IsSpace(s[k])
    ensures n == |s| || !IsSpace(s[n])
  {
    if s != [] && IsSpace(s[0]) then 1 + SpaceRun(s[1..]) else 0
  }

  /** Length of the longest whitespace suffix of `s`. */
  function TrailingSpaceRun(s: string): (n: nat)
    ensures n <= |s| && forall k :: |s| - n <= k < |s| ==> IsSpace(s[k])
    ensures n == |s| || !IsSpace(s[|s| - 1 - n])
  {
    if s != [] && IsSpace(s[|s| - 1]) then 1 + TrailingSpaceRun(s[..|s| - 1]) else 0
  }

  /** Python's `str.strip()`: `s` without its leading and trailing whitespace.
      The result neither starts nor ends with whitespace. */
  function Strip(s: string): (r: string)
    ensures |r| <= |s|
    ensures r == [] || (!IsSpace(r[0]) && !IsSpace(r[|r| - 1]))
  {
    var i := SpaceRun(s);
    if i == |s| then []
    else
      var j := |s| - TrailingSpaceRun(s);
      assert i < j;
      s[i..j]
  }

  /** `strip()` cuts only whitespace: the result sits at some position of `s`
      with nothing but whitespace on either side of it. */
  lemma StripCutsSpaceOnly(s: string)
    ensures exists i :: CutAt(s, Strip(s), i)
  {
    var r := Strip(s);
    var i := SpaceRun(s);
    if i == |s| {
      assert s[..i] == s && s[i..] == [];
      assert CutAt(s, r, i);
    } else {
      assert CutAt(s, r, i);
    }
  }

  /** `r` sits at position `i` of `s` with only whitespace on either side. */
  predicate CutAt(s: string, r: string, i: int) {
    0 <= i <= |s| - |r| && r == s[i..i + |r|] && AllSpaces(s[..i]) && AllSpaces(s[i + |r|..])
  }

  /** A string with no whitespace at either end is left alone by `strip()`. */
  lemma StripUnchanged(s: string)
    requires s == [] || (!IsSpace(s[0]) && !IsSpace(s[|s| - 1]))
    ensures Strip(s) == s
  {
    if s != [] {
      assert SpaceRun(s) == 0 && TrailingSpaceRun(s) == 0;
      assert s[0..|s|] == s;
    }
  }

  /** Stripping twice is stripping once, so the source's second `strip()` in
      the bare-prompt test sees the line the loop already stripped. */
  lemma StripIdempotent(s: string)
    ensures Strip(Strip(s)) == Strip(s)
  {
    StripUnchanged(Strip(s));
  }

  // ------------------------------------------------- substring and prefix

  /** Python's `sub in s`, scanning the start positions from the left. */
  predicate Contains(s: string, sub: string)
    decreases |s|
  {
    |sub| <= |s| && (s[..|sub|] == sub || Contains(s[1..], sub))
  }

  /** `Contains` holds exactly when `sub` occurs at some position of `s`. */
  lemma {:induction false} ContainsIff(s: string, sub: string)
    ensures Contains(s, sub) <==> exists i :: OccursAt(s, sub, i)
    decreases |s|
  {
    if |sub| <= |s| && s[..|sub|] == sub {
      assert OccursAt(s, sub, 0);
    } else if |sub| <= |s| {
      ContainsIff(s[1..], sub);
      if exists i :: OccursAt(s, sub, i) {
        var i :| OccursAt(s, sub, i);
        assert s[1..][i - 1..i - 1 + |sub|] == s[i..i + |sub|];
        assert OccursAt(s[1..], sub, i - 1);
      }
      if Contains(s[1..], sub) {
        var j :| OccursAt(s[1..], sub, j);
        assert s[1..][j..j + |sub|] == s[j + 1..j + 1 + |sub|];
        assert OccursAt(s, sub, j + 1);
      }
    }
  }

  /** `sub` occurs in `s` starting at position `i`. */
  predicate OccursAt(s: string, sub: string, i: int) {
    0 <= i <= |s| - |sub| && s[i..i + |sub|] == sub
  }

  /** Python's `s.startswith(p)`. */
  predicate StartsWith(s: string, p: string) {
    |p| <= |s| && s[..|p|] == p
  }

  /** `startswith` compares the first `|p|` characters one by one; every
      string starts with itself followed by anything. */
  lemma StartsWithIff(s: string, p: string, rest: string)
    ensures StartsWith(s, p) <==> |p| <= |s| && forall i :: 0 <= i < |p| ==> s[i] == p[i]
    ensures StartsWith(p + rest, p)
  {
    assert (p + rest)[..|p|] == p;
    if |p| <= |s| && forall i :: 0 <= i < |p| ==> s[i] == p[i] {
      assert s[..|p|] == p;
    }
  }

  // ---------------------------------------------------------------- runs

  /** Length of the longest digit prefix of `s`. */
  function DigitRun(s: string): (n: nat)
    ensures n <= |s| && forall k :: 0 <= k < n ==> IsDigit(s[k])
    ensures n == |s| || !IsDigit(s[n])
  {
    if s != [] && IsDigit(s[0]) then 1 + DigitRun(s[1..]) else 0
  }

  /** The maximal runs are determined by what the string starts with: a run
      of `a` followed by a character outside the class has length `|a|`. */
  lemma {:induction false} SpaceRunOf(a: string, b: string)
    requires AllSpaces(a) && (b == [] || !IsSpace(b[0]))
    ensures SpaceRun(a + b) == |a|
    decreases |a|
  {
    if a != [] {
      assert (a + b)[1..] == a[1..] + b;
      SpaceRunOf(a[1..], b);
    }
  }

  lemma {:induction false} DigitRunOf(a: string, b: string)
    requires AllDigits(a) && (b == [] || !IsDigit(b[0]))
    ensures DigitRun(a + b) == |a|
    decreases |a|
  {
    if a != [] {
      assert (a + b)[1..] == a[1..] + b;
      DigitRunOf(a[1..], b);
    }
  }

  // ------------------------------------------------------- decimal values

  function DigitValue(c: char): (d: nat)
    requires IsDigit(c)
    ensures d < 10
  {
    (c as int - '0' as int) as nat
  }

  function DigitChar(d: nat): (c: char)
    requires d < 10
    ensures IsDigit(c) && DigitValue(c) == d
  {
    ('0' as int + d) as char
  }

  /** The value of a string of decimal digits, most significant first
      (leading zeros allowed, as `int()` allows them). */
  function DigitsValue(ds: string): nat
    requires AllDigits(ds)
  {
    if ds == [] then 0 else DigitsValue(ds[..|ds| - 1]) * 10 + DigitValue(ds[|ds| - 1])
  }

  /** The shortest decimal spelling of `n`. */
  function NatDigits(n: nat): (ds: string)
    ensures ds != [] && AllDigits(ds)
  {
    if n < 10 then [DigitChar(n)] else NatDigits(n / 10) + [DigitChar(n % 10)]
  }

  lemma {:induction false} NatDigitsValue(n: nat)
    ensures DigitsValue(NatDigits(n)) == n
  {
    var ds := NatDigits(n);
    if n >= 10 {
      NatDigitsValue(n / 10);
      assert ds[..|ds| - 1] == NatDigits(n / 10);
    }
  }

  // ---------------------------------------------------------------- int()

  /** Python's `int(t)` on an already stripped string: an optional `+` or `-`
      followed by one or more decimal digits; anything else raises
      `ValueError`, reported here as `None`. */
  function ParseInt(t: string): (r: Option<int>)
    ensures r.Some? ==> t != [] && (IsDigit(t[0]) || t[0] == '+' || t[0] == '-')
    ensures r.Some? && t[0] == '-' ==> r.value <= 0
    ensures r.Some? && t[0] != '-' ==> r.value >= 0
  {
    if t == [] then None
    else if t[0] == '+' || t[0] == '-' then
      var ds := t[1..];
      if ds != [] && AllDigits(ds) then
        Some(if t[0] == '-' then 0 - DigitsValue(ds) else DigitsValue(ds))
      else None
    else if AllDigits(t) then Some(DigitsValue(t))
    else None
  }

  /** A sign Python's `int()` accepts in front of the digits. */
  predicate IsSign(sign: string) {
    sign == "" || sign == "+" || sign == "-"
  }

  /** The value of digits `ds` under a sign: negated for `-` only. */
  function SignedValue(sign: string, ds: string): int
    requires AllDigits(ds)
  {
    if sign == "-" then 0 - DigitsValue(ds) else DigitsValue(ds)
  }

  /** `int()` accepts every optional sign followed by one or more digits,
      leading zeros included, and reads the signed value of the digits. */
  lemma ParseIntLiteral(sign: string, ds: string)
    requires IsSign(sign) && ds != [] && AllDigits(ds)
    ensures ParseInt(sign + ds) == Some(SignedValue(sign, ds))
  {
    if sign != "" {
      assert (sign + ds)[1..] == ds;
    } else {
      assert sign + ds == ds;
    }
  }

  /** Conversely, `int()` accepts nothing else: an accepted string is a sign
      (possibly empty) followed by one or more digits, and the value read is
      their signed value. */
  lemma ParseIntShape(t: string)
    requires ParseInt(t).Some?
    ensures var sign := if t[0] == '+' || t[0] == '-' then t[..1] else "";
      var ds := t[|sign|..];
      IsSign(sign) && ds != [] && AllDigits(ds) && t == sign + ds &&
      ParseInt(t).value == SignedValue(sign, ds)
  {
    if t[0] == '+' || t[0] == '-' {
      assert t == t[..1] + t[1..];
      assert t[..1] == [t[0]];
    } else {
      assert t[0..] == t;
    }
  }

  /** The canonical decimal spelling of `v`, as Python's `str(v)` writes it. */
  function FormatInt(v: int): (s: string)
    ensures s != []
  {
    if v < 0 then "-" + NatDigits(-v) else NatDigits(v)
  }

  /** `int()` reads back every integer written in decimal. */
  lemma ParseFormatRoundTrip(v: int)
    ensures ParseInt(FormatInt(v)) == Some(v)
  {
    if v < 0 {
      NatDigitsValue(-v);
      assert FormatInt(v)[1..] == NatDigits(-v);
    } else {
      NatDigitsValue(v);
    }
  }
}
