/**
 * The few pieces of Python string behaviour the deployment tool relies on:
 * `str()` of an integer, the `in` substring test (also what `grep -F` and a
 * `sed` address made of letters, digits and `-` look for on a line), and
 * `re.findall(r'\d+', s)`.
 */
module PyText {

  predicate IsDigit(c: char) { '0' <= c <= '9' }

  predicate AllDigits(s: string) { forall i :: 0 <= i < |s| ==> IsDigit(s[i]) }

  predicate NoDigits(s: string) { forall i :: 0 <= i < |s| ==> !IsDigit(s[i]) }

  function DigitChar(d: nat): (c: char)
    requires d < 10
    ensures IsDigit(c) && (c == '0' <==> d == 0)
  {
    "0123456789"[d]
  }

  /** `str(n)` for a non-negative integer: decimal digits without a leading zero. */
  function NatToDecimal(n: nat): (s: string)
    ensures |s| > 0 && AllDigits(s)
    ensures s[0] == '0' <==> n == 0
    ensures n == 0 ==> s == "0"
    decreases n
  {
    if n < 10 then [DigitChar(n)] else NatToDecimal(n / 10) + [DigitChar(n % 10)]
  }

  /** `str(n)` for any integer. */
  function IntToDecimal(n: int): (s: string)
    ensures |s| > 0
    ensures s[0] == '0' ==> s == "0"
    ensures n >= 0 ==> AllDigits(s)
    ensures n < 0 ==> s[0] == '-'
  {
    if n < 0 then "-" + NatToDecimal(-n) else NatToDecimal(n)
  }

  /** The value of a digit character. */
  function DigitValue(c: char): (d: nat)
    requires IsDigit(c)
    ensures d < 10
  {
    (c as int - '0' as int) as nat
  }

  /** The number a string of decimal digits denotes, read left to right. */
  function DecimalValue(s: string): nat
    requires AllDigits(s)
    decreases |s|
  {
    if s == [] then 0 else DecimalValue(s[..|s| - 1]) * 10 + DigitValue(s[|s| - 1])
  }

  /** `str(n)` denotes `n`: reading the digits back gives the number. */
  lemma {:induction false} DecimalRoundTrip(n: nat)
    ensures DecimalValue(NatToDecimal(n)) == n
    decreases n
  {
    var s := NatToDecimal(n);
    if n < 10 {
      assert s[..|s| - 1] == [];
    } else {
      DecimalRoundTrip(n / 10);
      assert s[..|s| - 1] == NatToDecimal(n / 10);
    }
  }

  /** Distinct numbers have distinct decimal strings. */
  lemma NatToDecimalInjective(m: nat, n: nat)
    requires NatToDecimal(m) == NatToDecimal(n)
    ensures m == n
  {
    DecimalRoundTrip(m);
    DecimalRoundTrip(n);
  }

  /** `str(n)` of any integer denotes `n`: its digits, after a `-` for a negative `n`. */
  lemma IntRoundTrip(n: int)
    ensures n >= 0 ==> DecimalValue(IntToDecimal(n)) == n
    ensures n < 0 ==> var s := IntToDecimal(n);
      s[0] == '-' && AllDigits(s[1..]) && DecimalValue(s[1..]) == -n
  {
    if n < 0 {
      assert IntToDecimal(n)[1..] == NatToDecimal(-n);
      DecimalRoundTrip(-n);
    } else {
      DecimalRoundTrip(n);
    }
  }

  /** Python's `p in s` for strings: `p` occurs in `s` as a contiguous piece. */
  predicate Contains(s: string, p: string) {
    exists i: nat | i <= |s| :: OccursAt(s, p, i)
  }

  /** `p` occurs in `s` starting at index `i`. */
  predicate OccursAt(s: string, p: string, i: nat) {
    i + |p| <= |s| && s[i..i + |p|] == p
  }

  /**
   * `re.findall(r'\d+', s)` continued from a run of digits `run` that has been
   * read but not yet closed: the maximal runs of digits, left to right.
   */
  function DigitRunsFrom(s: string, run: string): (r: seq<string>)
    requires AllDigits(run)
    ensures forall k :: 0 <= k < |r| ==> |r[k]| > 0 && AllDigits(r[k])
    decreases |s|
  {
    if s == [] then (if run == [] then [] else [run])
    else if IsDigit(s[0]) then DigitRunsFrom(s[1..], run + [s[0]])
    else (if run == [] then [] else [run]) + DigitRunsFrom(s[1..], [])
  }

  /** `re.findall(r'\d+', s)`. */
  function DigitRuns(s: string): (r: seq<string>)
    ensures forall k :: 0 <= k < |r| ==> |r[k]| > 0 && AllDigits(r[k])
  {
    DigitRunsFrom(s, [])
  }

  /** Characters that are not digits open no run. */
  lemma {:induction false} DigitRunsSkip(pre: string, t: string)
    requires NoDigits(pre)
    ensures DigitRunsFrom(pre + t, []) == DigitRunsFrom(t, [])
    decreases |pre|
  {
    if pre != [] {
      assert (pre + t)[0] == pre[0] && !IsDigit(pre[0]);
      assert (pre + t)[1..] == pre[1..] + t;
      assert DigitRunsFrom(pre + t, []) == DigitRunsFrom(pre[1..] + t, []);
      DigitRunsSkip(pre[1..], t);
    } else {
      assert pre + t == t;
    }
  }

  /** Digits extend the open run. */
  lemma {:induction false} DigitRunsExtend(d: string, t: string, run: string)
    requires AllDigits(d) && AllDigits(run)
    ensures DigitRunsFrom(d + t, run) == DigitRunsFrom(t, run + d)
    decreases |d|
  {
    if d != [] {
      assert (d + t)[0] == d[0] && IsDigit(d[0]);
      assert (d + t)[1..] == d[1..] + t;
      assert run + [d[0]] + d[1..] == run + d;
      assert DigitRunsFrom(d + t, run) == DigitRunsFrom(d[1..] + t, run + [d[0]]);
      DigitRunsExtend(d[1..], t, run + [d[0]]);
    } else {
      assert d + t == t && run + d == run;
    }
  }

  /** A string with no digits yields no run. */
  lemma {:induction false} DigitRunsNone(t: string)
    requires NoDigits(t)
    ensures DigitRunsFrom(t, []) == []
  {
    DigitRunsSkip(t, []);
    assert t + [] == t;
  }

  /**
   * A single run of digits between two digit-free pieces is found again,
   * whole and alone: `re.findall(r'\d+', pre + w + post) == [w]`.
   */
  lemma DigitRunsIsolate(pre: string, w: string, post: string)
    requires NoDigits(pre) && NoDigits(post)
    requires |w| > 0 && AllDigits(w)
    ensures DigitRuns(pre + w + post) == [w]
  {
    assert pre + w + post == pre + (w + post);
    DigitRunsSkip(pre, w + post);
    DigitRunsExtend(w, post, []);
    assert [] + w == w;
    if post == [] {
    } else {
      DigitRunsNone(post[1..]);
    }
  }

  /** A string of digits only is one run. */
  lemma DigitRunsWhole(w: string)
    requires |w| > 0 && AllDigits(w)
    ensures DigitRuns(w) == [w]
  {
    DigitRunsIsolate([], w, []);
    assert [] + w + [] == w;
  }

  /** A non-digit between two pieces separates their runs, so the runs come in order. */
  lemma {:induction false} DigitRunsFromSplit(a: string, c: char, b: string, run: string)
    requires !IsDigit(c) && AllDigits(run)
    ensures DigitRunsFrom(a + [c] + b, run) == DigitRunsFrom(a, run) + DigitRunsFrom(b, [])
    decreases |a|
  {
    if a == [] {
      assert a + [c] + b == [c] + b;
      assert ([c] + b)[1..] == b;
    } else {
      assert (a + [c] + b)[0] == a[0];
      assert (a + [c] + b)[1..] == a[1..] + [c] + b;
      if IsDigit(a[0]) {
        DigitRunsFromSplit(a[1..], c, b, run + [a[0]]);
      } else {
        DigitRunsFromSplit(a[1..], c, b, []);
      }
    }
  }

  /**
   * `re.findall(r'\d+', a + c + b)` with `c` not a digit is the runs of `a`
   * followed by the runs of `b`; with DigitRunsWhole and DigitRunsNone this
   * determines the runs of every string: maximal, all of them, left to right.
   */
  lemma DigitRunsSplit(a: string, c: char, b: string)
    requires !IsDigit(c)
    ensures DigitRuns(a + [c] + b) == DigitRuns(a) + DigitRuns(b)
  {
    DigitRunsFromSplit(a, c, b, []);
  }
}
