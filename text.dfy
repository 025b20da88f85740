/**
 * String helpers the loader and the query handlers rely on: ASCII
 * lower-casing, Python's whitespace `strip`, suffix tests, and the search for
 * the first maximal run of decimal digits in a file name (the model's
 * replacement for `re.search(r"(\d+)", fname)` followed by `int(...)`).
 */
module Text {
  import opened Wrappers

  predicate IsUpper(c: char) { 'A' <= c <= 'Z' }

  /** Lower-cases one ASCII letter and leaves every other character alone. */
  function LowerChar(c: char): char {
    if IsUpper(c) then (c as int + 32) as char else c
  }

  /** `s.lower()`, restricted to ASCII letters. */
  function Lower(s: string): (r: string)
    ensures |r| == |s|
    ensures forall i :: 0 <= i < |r| ==> !IsUpper(r[i])
    ensures forall i :: 0 <= i < |s| && !IsUpper(s[i]) ==> r[i] == s[i]
    ensures forall i :: 0 <= i < |s| && IsUpper(s[i]) ==> r[i] as int == s[i] as int + 32
  {
    seq(|s|, i requires 0 <= i < |s| => LowerChar(s[i]))
  }

  /** A string is lower-case when lower-casing does not change it. */
  predicate IsLowerCase(s: string) { Lower(s) == s }

  lemma LowerIsLowerCase(s: string)
    ensures IsLowerCase(Lower(s))
  {
  }

  lemma LowerOfLowerCase(s: string)
    requires forall i :: 0 <= i < |s| ==> !IsUpper(s[i])
    ensures Lower(s) == s
  {
  }

  lemma LowerAppend(a: string, b: string)
    ensures Lower(a + b) == Lower(a) + Lower(b)
  {
    assert forall i :: 0 <= i < |a| ==> (a + b)[i] == a[i];
    assert forall i :: |a| <= i < |a + b| ==> (a + b)[i] == b[i - |a|];
  }

  /** `s.endswith(suffix)`. */
  predicate EndsWith(s: string, suffix: string) {
    |suffix| <= |s| && s[|s| - |suffix|..] == suffix
  }

  /** Python's `str.isspace` for one character: the characters `str.strip()` removes. */
  predicate IsSpace(c: char) {
    c == ' ' || ('\t' <= c <= '\r') || ('\U{1C}' <= c <= '\U{1F}')
    || c == '\U{85}' || c == '\U{A0}' || c == '\U{1680}'
    || ('\U{2000}' <= c <= '\U{200A}') || c == '\U{2028}' || c == '\U{2029}'
    || c == '\U{202F}' || c == '\U{205F}' || c == '\U{3000}'
  }

  predicate AllSpace(s: string) { forall i :: 0 <= i < |s| ==> IsSpace(s[i]) }

  /** Every character of `s[i..j]` is whitespace. */
  predicate SpaceBetween(s: string, i: nat, j: nat)
    requires i <= j <= |s|
  {
    forall k :: i <= k < j ==> IsSpace(s[k])
  }

  /** Where the text starts once the whitespace from position `i` on is skipped. */
  function SkipSpaces(s: string, i: nat): (a: nat)
    requires i <= |s|
    ensures i <= a <= |s| && SpaceBetween(s, i, a)
    ensures a == |s| || !IsSpace(s[a])
    decreases |s| - i
  {
    if i < |s| && IsSpace(s[i]) then SkipSpaces(s, i + 1) else i
  }

  /** Where the text of `s[lo..j]` ends once its trailing whitespace is dropped. */
  function DropSpaces(s: string, lo: nat, j: nat): (b: nat)
    requires lo <= j <= |s|
    ensures lo <= b <= j && SpaceBetween(s, b, j)
    ensures b == lo || !IsSpace(s[b - 1])
    decreases j - lo
  {
    if lo < j && IsSpace(s[j - 1]) then DropSpaces(s, lo, j - 1) else j
  }

  /**
   * `s.strip()`: the slice of `s` left after removing its leading and its
   * trailing whitespace; it is blank exactly when `s` is all whitespace.
   */
  function Strip(s: string): (r: string)
    ensures exists a, b :: 0 <= a <= b <= |s| && r == s[a..b] && SpaceBetween(s, 0, a) && SpaceBetween(s, b, |s|)
    ensures r == [] <==> AllSpace(s)
    ensures r != [] ==> !IsSpace(r[0]) && !IsSpace(r[|r| - 1])
  {
    var a := SkipSpaces(s, 0);
    var b := DropSpaces(s, a, |s|);
    assert b == a ==> a == |s|;
    s[a..b]
  }

  /**
   * Whitespace padding around a name is exactly what `strip` removes: the
   * name comes back whole when it starts and ends with a non-space.
   */
  lemma StripPadded(pre: string, name: string, post: string)
    requires AllSpace(pre) && AllSpace(post)
    requires name != [] && !IsSpace(name[0]) && !IsSpace(name[|name| - 1])
    ensures Strip(pre + name + post) == name
  {
    var s, p, m := pre + name + post, |pre|, |pre| + |name|;
    assert forall k :: 0 <= k < p ==> s[k] == pre[k];
    assert forall k :: m <= k < |s| ==> s[k] == post[k - m];
    assert s[p] == name[0] && s[m - 1] == name[|name| - 1];
    StripCut(s, p, m);
    assert s[p..m] == name;
  }

  /** `strip` removes exactly the whitespace around a part that starts and ends with a non-space. */
  lemma StripCut(s: string, p: nat, m: nat)
    requires p < m <= |s| && SpaceBetween(s, 0, p) && SpaceBetween(s, m, |s|)
    requires !IsSpace(s[p]) && !IsSpace(s[m - 1])
    ensures Strip(s) == s[p..m]
  {
    var a := SkipSpaces(s, 0);
    assert a == p;
    var b := DropSpaces(s, a, |s|);
    assert b == m;
  }

  predicate IsDigit(c: char) { '0' <= c <= '9' }

  predicate AllDigits(s: string) { forall i :: 0 <= i < |s| ==> IsDigit(s[i]) }

  predicate NoDigits(s: string) { forall i :: 0 <= i < |s| ==> !IsDigit(s[i]) }

  /** The integer a string of decimal digits denotes (`int(ds)`); leading zeros are allowed. */
  function DigitsValue(ds: string): nat
    requires AllDigits(ds)
  {
    if ds == [] then 0
    else DigitsValue(ds[..|ds| - 1]) * 10 + (ds[|ds| - 1] as int - '0' as int)
  }

  /** Length of the maximal run of digits at the start of `s`. */
  function DigitRunLength(s: string): (n: nat)
    ensures n <= |s| && AllDigits(s[..n])
    ensures n == |s| || !IsDigit(s[n])
  {
    if s != [] && IsDigit(s[0]) then
      var m := DigitRunLength(s[1..]);
      assert s[..1 + m] == [s[0]] + s[1..][..m];
      1 + m
    else 0
  }

  /**
   * The value of the first maximal run of decimal digits in `s`, or `None`
   * when `s` has no digit at all.
   */
  function FirstDigitRun(s: string): (r: Option<nat>)
    ensures r.None? <==> NoDigits(s)
  {
    if s == [] then None
    else if IsDigit(s[0]) then Some(DigitsValue(s[..DigitRunLength(s)]))
    else
      var r := FirstDigitRun(s[1..]);
      assert NoDigits(s[1..]) ==> NoDigits(s) by {
        if NoDigits(s[1..]) {
          forall i | 0 <= i < |s| ensures !IsDigit(s[i]) {
            if i > 0 { assert s[i] == s[1..][i - 1]; }
          }
        }
      }
      r
  }

  /**
   * Whatever `s` looks like, if the characters before position `i` are not
   * digits and `s[i..j]` is a maximal digit run, `FirstDigitRun` yields
   * exactly the value of `s[i..j]`.
   */
  lemma {:induction false} FirstDigitRunIsFirstRun(s: string, i: nat, j: nat)
    requires i < j <= |s|
    requires NoDigits(s[..i])
    requires AllDigits(s[i..j])
    requires j == |s| || !IsDigit(s[j])
    ensures FirstDigitRun(s) == Some(DigitsValue(s[i..j]))
  {
    if i == 0 {
      assert IsDigit(s[0]) by { assert s[0] == s[i..j][0]; }
      var n := DigitRunLength(s);
      assert n == j;
      assert s[..n] == s[i..j];
    } else {
      assert !IsDigit(s[0]) by { assert s[0] == s[..i][0]; }
      var t := s[1..];
      assert t[..i - 1] == s[1..i];
      assert NoDigits(t[..i - 1]) by {
        forall k | 0 <= k < i - 1 ensures !IsDigit(t[k]) {
          assert t[k] == s[..i][k + 1];
        }
      }
      assert t[i - 1..j - 1] == s[i..j];
      FirstDigitRunIsFirstRun(t, i - 1, j - 1);
    }
  }

  /** The decimal rendering of `n` (`str(n)`), used to state the round trip below. */
  function ShowNat(n: nat): (ds: string)
    ensures ds != [] && AllDigits(ds)
    ensures DigitsValue(ds) == n
  {
    var c := ('0' as int + n % 10) as char;
    if n < 10 then
      assert [c][..0] == [];
      [c]
    else
      var p := ShowNat(n / 10);
      assert (p + [c])[..|p|] == p;
      p + [c]
  }

  /**
   * Round trip of day extraction: a name made of a digit-free prefix, the
   * decimal rendering of `n`, and a suffix that does not start with a digit
   * (`day` + `12` + `.json`) yields the day `n`.
   */
  lemma DigitRunOfRenderedNumber(prefix: string, n: nat, suffix: string)
    requires NoDigits(prefix)
    requires suffix == [] || !IsDigit(suffix[0])
    ensures FirstDigitRun(prefix + ShowNat(n) + suffix) == Some(n)
  {
    var ds := ShowNat(n);
    var s := prefix + ds + suffix;
    var i, j := |prefix|, |prefix| + |ds|;
    assert s[..i] == prefix;
    assert s[i..j] == ds;
    assert j < |s| ==> s[j] == suffix[0];
    FirstDigitRunIsFirstRun(s, i, j);
  }
}
