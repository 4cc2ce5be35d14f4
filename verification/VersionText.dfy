/** What Compare means for the text of versions: suffixes by their characters, numerals by length and digits,
    and missing tokens as zeros. */
module VersionText {
  import opened VersionSpec

  // ------------------------------------------------------------ suffixes

  /** The dictionary order: a proper prefix comes first, and otherwise the first different character decides. */
  ghost predicate TextBefore(a: string, b: string) {
    a < b || exists k: nat :: DiffersAt(a, b, k) && a[k] < b[k]
  }

  predicate DiffersAt(a: string, b: string, k: nat) {
    k < |a| && k < |b| && a[..k] == b[..k] && a[k] != b[k]
  }

  lemma SameUpTo(a: string, b: string, k: nat)
    requires DiffersAt(a, b, k)
    ensures forall i :: 0 <= i < k ==> a[i] == b[i]
  {
    forall i | 0 <= i < k
      ensures a[i] == b[i]
    {
      assert a[..k][i] == a[i] && b[..k][i] == b[i];
    }
  }

  lemma DiffersTail(a: string, b: string, k: nat)
    requires a != "" && b != "" && a[0] == b[0]
    ensures DiffersAt(a, b, k + 1) <==> DiffersAt(a[1..], b[1..], k)
  {
    if k + 1 < |a| && k + 1 < |b| {
      assert a[..k + 1] == [a[0]] + a[1..][..k] && b[..k + 1] == [b[0]] + b[1..][..k];
      assert a[..k + 1][1..] == a[1..][..k] && b[..k + 1][1..] == b[1..][..k];
    }
  }

  lemma {:induction false} LexIsTextOrder(a: string, b: string)
    ensures Lex(a, b) == -1 <==> TextBefore(a, b)
  {
    if a != "" && b != "" {
      if a[0] == b[0] {
        LexIsTextOrder(a[1..], b[1..]);
        assert a == [a[0]] + a[1..] && b == [b[0]] + b[1..];
        assert a < b <==> a[1..] < b[1..];
        if k: nat :| DiffersAt(a[1..], b[1..], k) && a[1..][k] < b[1..][k] {
          DiffersTail(a, b, k);
        }
        if k: nat :| DiffersAt(a, b, k) && a[k] < b[k] {
          DiffersTail(a, b, k - 1);
        }
      } else {
        assert a[..0] == b[..0];
        assert DiffersAt(a, b, 0);
        forall k: nat | DiffersAt(a, b, k)
          ensures k == 0
        {
          SameUpTo(a, b, k);
        }
      }
    }
  }

  /** Tokens with the same number and different suffixes are in the order of their text. */
  lemma SuffixesByText(a: string, b: string)
    requires a != b && Number(a) == Number(b) && Suffixed(a) && Suffixed(b)
    ensures CompareTokens(a, b) == -1 <==> TextBefore(a, b)
    ensures CompareTokens(a, b) == 1 <==> TextBefore(b, a)
  {
    LexIsTextOrder(a, b);
    LexIsTextOrder(b, a);
    LexLaws(a, b);
  }

  // ------------------------------------------------------------ numerals

  predicate Numeral(t: string) {
    t != "" && AllDigits(t) && t[0] != '0' && Decimal(t) <= MAX_INT
  }

  function Power(n: nat): nat { if n == 0 then 1 else 10 * Power(n - 1) }

  lemma {:induction false} PowerGrows(m: nat, n: nat)
    requires m <= n
    ensures 1 <= Power(m) <= Power(n)
  {
    if m < n {
      PowerGrows(m, n - 1);
    } else if m > 0 {
      PowerGrows(m - 1, n - 1);
    }
  }

  lemma {:induction false} DecimalBounds(t: string)
    requires t != "" && AllDigits(t) && t[0] != '0'
    ensures Power(|t| - 1) <= Decimal(t) < Power(|t|)
  {
    if |t| == 1 {
      assert t[..0] == "" && Power(0) == 1 && Power(1) == 10;
    } else {
      DecimalBounds(t[..|t| - 1]);
    }
  }

  lemma TextBeforeLast(a: string, b: string)
    requires |a| == |b| > 0
    ensures var n := |a| - 1;
      TextBefore(a, b) <==> TextBefore(a[..n], b[..n]) || (a[..n] == b[..n] && a[n] < b[n])
  {
    var n := |a| - 1;
    assert !(a < b) && !(a[..n] < b[..n]);
    if k: nat :| DiffersAt(a, b, k) && a[k] < b[k] {
      if k < n {
        assert a[..n][..k] == a[..k] && b[..n][..k] == b[..k];
        assert DiffersAt(a[..n], b[..n], k);
      }
    }
    if k: nat :| DiffersAt(a[..n], b[..n], k) && a[..n][k] < b[..n][k] {
      assert a[..n][..k] == a[..k] && b[..n][..k] == b[..k];
      assert DiffersAt(a, b, k);
    }
    if a[..n] == b[..n] && a[n] < b[n] {
      assert DiffersAt(a, b, n);
    }
  }

  /** Digits of the same length count up in the order of their text. */
  lemma {:induction false} DecimalByText(a: string, b: string)
    requires |a| == |b| && AllDigits(a) && AllDigits(b)
    ensures Decimal(a) < Decimal(b) <==> TextBefore(a, b)
    ensures Decimal(a) == Decimal(b) <==> a == b
    decreases |a|
  {
    if a != "" {
      var n := |a| - 1;
      assert a == a[..n] + [a[n]] && b == b[..n] + [b[n]];
      DecimalByText(a[..n], b[..n]);
      TextBeforeLast(a, b);
      DecimalByText(b[..n], a[..n]);
    }
  }

  /** Numerals without leading zeros within an int: the shorter is below, and of the same length the one whose
      first different digit is smaller. */
  lemma NumeralsByLength(a: string, b: string)
    requires Numeral(a) && Numeral(b)
    ensures CompareTokens(a, b) == -1 <==> |a| < |b| || (|a| == |b| && TextBefore(a, b))
    ensures CompareTokens(a, b) == 0 <==> a == b
  {
    NumeralNumber(a);
    NumeralNumber(b);
    DecimalBounds(a);
    DecimalBounds(b);
    if |a| < |b| {
      PowerGrows(|a|, |b| - 1);
    } else if |b| < |a| {
      PowerGrows(|b|, |a| - 1);
    } else {
      DecimalByText(a, b);
    }
    TokenOrder(a, b);
  }

  lemma NumeralNumber(t: string)
    requires Numeral(t)
    ensures Number(t) == Decimal(t) && !Suffixed(t)
  {
    DigitCountAll(t);
    assert t[..|t|] == t;
  }

  /** Beyond an int the value is lost, and different numerals are below each other. */
  lemma HugeNumeralsClash(a: string, b: string)
    requires a != b && AllDigits(a) && AllDigits(b) && Decimal(a) > MAX_INT && Decimal(b) > MAX_INT
    ensures CompareTokens(a, b) == -1 && CompareTokens(b, a) == -1
  {
    DigitCountAll(a);
    DigitCountAll(b);
    assert a[..|a|] == a && b[..|b|] == b;
    assert Decimal("") == 0;
  }

  // ------------------------------------------------------------ the number of a token

  /** The value of the digits in front, zero if there are none, and the largest int if they are beyond it. */
  lemma {:induction false} NumberIs(digits: string, suffix: string)
    requires AllDigits(digits) && (suffix != "" ==> !IsDigit(suffix[0]))
    ensures Number(digits + suffix) ==
      if digits == "" then 0 else if Decimal(digits) > MAX_INT then MAX_INT else Decimal(digits)
    ensures Suffixed(digits + suffix) <==> suffix != ""
  {
    DigitsInFront(digits, suffix);
    assert (digits + suffix)[..|digits|] == digits;
  }

  lemma {:induction false} DigitsInFront(digits: string, suffix: string)
    requires AllDigits(digits) && (suffix != "" ==> !IsDigit(suffix[0]))
    ensures DigitCount(digits + suffix) == |digits|
  {
    if digits == "" {
      assert digits + suffix == suffix;
    } else {
      assert (digits + suffix)[1..] == digits[1..] + suffix;
      DigitsInFront(digits[1..], suffix);
    }
  }

  // ------------------------------------------------------------ one more token

  lemma {:induction false} SplitAppend(v: string, t: string)
    requires '.' !in t
    ensures Split(v + "." + t) == Split(v) + [t]
  {
    if v == "" {
      assert v + "." + t == "." + t && ("." + t)[1..] == t;
      SplitNoDot(t);
    } else {
      assert (v + "." + t)[1..] == v[1..] + "." + t && (v + "." + t)[0] == v[0];
      SplitAppend(v[1..], t);
    }
  }

  lemma {:induction false} DottedIsOther(v: string, t: string)
    ensures v + "." + t != DEVELOPMENT && v + "." + t != v
  {
    var s := v + "." + t;
    assert s[|v|] == '.' && |s| > |v|;
    assert forall i :: 0 <= i < |DEVELOPMENT| ==> DEVELOPMENT[i] != '.';
  }

  /** One more token compares as that token with zero. */
  lemma {:induction false} OneMoreToken(v: string, t: string)
    requires v != DEVELOPMENT && '.' !in t
    ensures Compare(v + "." + t, v) == CompareTokens(Trim(t), "0")
  {
    DottedIsOther(v, t);
    CompareLists(v + "." + t, v);
    SplitAppend(v, t);
    CompareAppended(Split(v), t);
  }

  lemma {:induction false} CompareAppended(x: seq<string>, t: string)
    ensures CompareFrom(x + [t], x, 0) == CompareTokens(Trim(t), "0")
  {
    CompareSkips(x + [t], x, 0, |x|);
    assert CompareFrom(x + [t], x, |x| + 1) == 0;
    assert Token(x + [t], |x|) == Trim(t) && Token(x, |x|) == "0";
  }

  /** A trailing ".0" changes nothing, and a trailing ".1" makes a version larger; and AtLeast follows. */
  lemma {:induction false} TrailingTokens(v: string)
    requires v != DEVELOPMENT
    ensures Compare(v + ".0", v) == 0 && Compare(v + ".1", v) == 1
    ensures AtLeast(v, v + ".0") && AtLeast(v + ".1", v) && !AtLeast(v, v + ".1")
  {
    OneMoreAtLeast(v);
    OneMoreToken(v, "0");
    OneMoreToken(v, "1");
    OneDigit("0");
    OneDigit("1");
    assert v + "." + "0" == v + ".0" && v + "." + "1" == v + ".1";
  }

  /** And the other way around. */
  lemma {:induction false} OneMoreAtLeast(v: string)
    requires v != DEVELOPMENT
    ensures Compare(v, v + ".1") == -1
  {
    var longer := v + "." + "1";
    assert longer == v + ".1";
    DottedIsOther(v, "1");
    CompareLists(v, longer);
    SplitAppend(v, "1");
    OneDigit("0");
    OneDigit("1");
    AppendedBelow(Split(v), "1");
  }

  lemma {:induction false} AppendedBelow(x: seq<string>, t: string)
    ensures CompareFrom(x, x + [t], 0) ==
      CompareTokens("0", Trim(t))
  {
    CompareSkips(x, x + [t], 0, |x|);
    assert CompareFrom(x, x + [t], |x| + 1) == 0;
    assert Token(x + [t], |x|) == Trim(t) && Token(x, |x|) == "0";
  }
}
