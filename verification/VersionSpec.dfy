/** Version comparison: tokens between dots, trimmed, compared by leading number, then by
    suffix. The functions here specify the methods of class Version. */
module VersionSpec {

  const DEVELOPMENT := "development"

  /** The largest value of a 64-bit int, which strconv.Atoi returns for larger numbers. */
  const MAX_INT := 0x7fff_ffff_ffff_ffff

  // ------------------------------------------------------------ strings

  /** strings.Split(s, "."). */
  function Split(s: string): (tokens: seq<string>)
    ensures tokens != []
  {
    if s == "" then [""]
    else
      var rest := Split(s[1..]);
      if s[0] == '.' then [""] + rest else [[s[0]] + rest[0]] + rest[1..]
  }

  /** unicode.IsSpace. */
  predicate IsSpace(c: char) {
    var n := c as int;
    || 9 <= n <= 13 || n == 32 || n == 0x85 || n == 0xa0 || n == 0x1680
    || 0x2000 <= n <= 0x200a || n == 0x2028 || n == 0x2029 || n == 0x202f || n == 0x205f || n == 0x3000
  }

  function TrimLeft(s: string): string {
    if s != "" && IsSpace(s[0]) then TrimLeft(s[1..]) else s
  }

  function TrimRight(s: string): string {
    if s != "" && IsSpace(s[|s| - 1]) then TrimRight(s[..|s| - 1]) else s
  }

  /** strings.TrimSpace. */
  function Trim(s: string): string { TrimRight(TrimLeft(s)) }

  /** strings.Compare. */
  function Lex(a: string, b: string): int {
    if a == "" then if b == "" then 0 else -1
    else if b == "" then 1
    else if a[0] < b[0] then -1
    else if a[0] > b[0] then 1
    else Lex(a[1..], b[1..])
  }

  predicate IsDigit(c: char) { '0' <= c <= '9' }

  predicate AllDigits(s: string) {
    forall i :: 0 <= i < |s| ==> IsDigit(s[i])
  }

  /** The number of leading digits. */
  function DigitCount(s: string): (n: nat)
    ensures n <= |s|
  {
    if s != "" && IsDigit(s[0]) then 1 + DigitCount(s[1..]) else 0
  }

  function Decimal(s: string): (n: nat)
    requires AllDigits(s)
  {
    if s == "" then 0 else 10 * Decimal(s[..|s| - 1]) + (s[|s| - 1] as int - '0' as int)
  }

  /** strconv.Atoi on digits, whose range error the source ignores. */
  function Atoi(s: string): nat
    requires AllDigits(s)
  {
    if Decimal(s) > MAX_INT then MAX_INT else Decimal(s)
  }

  lemma {:induction false} DigitCountPrefix(s: string)
    ensures AllDigits(s[..DigitCount(s)])
    ensures DigitCount(s) < |s| ==> !IsDigit(s[DigitCount(s)])
  {
    if s != "" && IsDigit(s[0]) {
      DigitCountPrefix(s[1..]);
      assert s[..DigitCount(s)] == [s[0]] + s[1..][..DigitCount(s[1..])];
    }
  }

  /** Tokens with dots between them. */
  function Join(tokens: seq<string>): string
    requires tokens != []
  {
    if |tokens| == 1 then tokens[0] else tokens[0] + "." + Join(tokens[1..])
  }

  /** Split is the inverse of Join: it gives the one list of dot-free tokens that joins to the text. */
  lemma {:induction false} SplitJoins(s: string)
    ensures Join(Split(s)) == s
    ensures forall i :: 0 <= i < |Split(s)| ==> '.' !in Split(s)[i]
  {
    if s != "" {
      SplitJoins(s[1..]);
      var rest := Split(s[1..]);
      if s[0] == '.' {
        assert Split(s)[1..] == rest;
      } else if |rest| > 1 {
        assert Split(s)[1..] == rest[1..];
      }
    }
  }

  lemma {:induction false} SplitPrefix(token: string, s: string)
    requires '.' !in token
    ensures Split(token + s) == [token + Split(s)[0]] + Split(s)[1..]
  {
    if token == "" {
      assert token + s == s && token + Split(s)[0] == Split(s)[0];
    } else {
      assert (token + s)[1..] == token[1..] + s;
      SplitPrefix(token[1..], s);
      assert [token[0]] + (token[1..] + Split(s)[0]) == token + Split(s)[0];
    }
  }

  lemma {:induction false} JoinSplits(tokens: seq<string>)
    requires tokens != [] && forall i :: 0 <= i < |tokens| ==> '.' !in tokens[i]
    ensures Split(Join(tokens)) == tokens
  {
    if |tokens| == 1 {
      SplitPrefix(tokens[0], "");
      assert tokens[0] + "" == tokens[0];
    } else {
      JoinSplits(tokens[1..]);
      var rest := "." + Join(tokens[1..]);
      assert rest[1..] == Join(tokens[1..]);
      SplitPrefix(tokens[0], rest);
      assert tokens[0] + "." + Join(tokens[1..]) == tokens[0] + rest;
      assert tokens[0] + "" == tokens[0];
    }
  }

  predicate AllSpaces(s: string) {
    forall i :: 0 <= i < |s| ==> IsSpace(s[i])
  }

  lemma {:induction false} TrimLeftCuts(s: string) returns (p: string)
    ensures s == p + TrimLeft(s) && AllSpaces(p)
    ensures TrimLeft(s) != "" ==> !IsSpace(TrimLeft(s)[0])
  {
    p := "";
    if s != "" && IsSpace(s[0]) {
      var rest := TrimLeftCuts(s[1..]);
      p := [s[0]] + rest;
    }
  }

  lemma {:induction false} TrimRightCuts(s: string) returns (q: string)
    ensures s == TrimRight(s) + q && AllSpaces(q)
    ensures TrimRight(s) != "" ==> !IsSpace(TrimRight(s)[|TrimRight(s)| - 1]) && TrimRight(s)[0] == s[0]
  {
    q := "";
    if s != "" && IsSpace(s[|s| - 1]) {
      var rest := TrimRightCuts(s[..|s| - 1]);
      q := rest + [s[|s| - 1]];
    }
  }

  /** Trim cuts white space off both ends and leaves none there. */
  lemma TrimCuts(s: string) returns (p: string, q: string)
    ensures s == p + Trim(s) + q && AllSpaces(p) && AllSpaces(q)
    ensures Trim(s) != "" ==> !IsSpace(Trim(s)[0]) && !IsSpace(Trim(s)[|Trim(s)| - 1])
  {
    p := TrimLeftCuts(s);
    q := TrimRightCuts(TrimLeft(s));
  }

  // ------------------------------------------------------------ tokens

  /** The number a token starts with, 0 if it starts with none. */
  function Number(token: string): nat {
    DigitCountPrefix(token);
    if DigitCount(token) == 0 then 0 else Atoi(token[..DigitCount(token)])
  }

  /** A suffix follows the number. */
  predicate Suffixed(token: string) { DigitCount(token) < |token| }

  function CompareTokens(a: string, b: string): int {
    if a == b then 0
    else if Number(a) > Number(b) then 1
    else if Number(a) < Number(b) then -1
    else if !Suffixed(a) then -1
    else if !Suffixed(b) then 1
    else Lex(a, b)
  }

  /** The token order: by number, then without suffix before with suffix, then by text. */
  predicate Below(a: string, b: string) {
    || Number(a) < Number(b)
    || (Number(a) == Number(b) && Suffixed(b) && (Suffixed(a) ==> Lex(a, b) < 0))
  }

  /** Different tokens without suffix and with the same number, as "1" and "01". */
  predicate Clash(a: string, b: string) {
    a != b && Number(a) == Number(b) && !Suffixed(a) && !Suffixed(b)
  }

  lemma {:induction false} LexLaws(a: string, b: string)
    ensures Lex(a, b) == -Lex(b, a) && -1 <= Lex(a, b) <= 1
    ensures Lex(a, b) == 0 <==> a == b
  {
    if a != "" && b != "" && a[0] == b[0] {
      LexLaws(a[1..], b[1..]);
      assert a == [a[0]] + a[1..] && b == [b[0]] + b[1..];
    }
  }

  lemma {:induction false} LexTransitive(a: string, b: string, c: string)
    requires Lex(a, b) < 0 && Lex(b, c) < 0
    ensures Lex(a, c) < 0
  {
    if a != "" && b != "" && c != "" && a[0] == b[0] && b[0] == c[0] {
      LexTransitive(a[1..], b[1..], c[1..]);
    }
  }

  /** compareTokens decides the token order except on a clash, where it says "below" both ways. */
  lemma TokenOrder(a: string, b: string)
    ensures -1 <= CompareTokens(a, b) <= 1
    ensures CompareTokens(a, b) == 0 <==> a == b
    ensures CompareTokens(a, b) == -1 <==> Below(a, b) || Clash(a, b)
    ensures CompareTokens(a, b) == 1 <==> Below(b, a)
    ensures !(Below(a, b) && Below(b, a)) && (Clash(a, b) ==> !Below(a, b) && !Below(b, a))
  {
    LexLaws(a, b);
    LexLaws(b, a);
  }

  lemma BelowTransitive(a: string, b: string, c: string)
    requires Below(a, b) && Below(b, c)
    ensures Below(a, c)
  {
    if Suffixed(a) && Suffixed(b) && Suffixed(c) && Lex(a, b) < 0 && Lex(b, c) < 0 {
      LexTransitive(a, b, c);
    }
  }

  // ------------------------------------------------------------ versions

  /** The i-th trimmed token, "0" beyond the last. */
  function Token(tokens: seq<string>, i: nat): string {
    if i < |tokens| then Trim(tokens[i]) else "0"
  }

  function Longest(a: seq<string>, b: seq<string>): nat {
    if |b| > |a| then |b| else |a|
  }

  function CompareFrom(a: seq<string>, b: seq<string>, i: nat): int
    decreases Longest(a, b) - i
  {
    if i >= Longest(a, b) then 0
    else
      var c := CompareTokens(Token(a, i), Token(b, i));
      if c != 0 then c else CompareFrom(a, b, i + 1)
  }

  /** Compare called with `a` on a version `b`: 1 if a is larger, -1 if b is. */
  function Compare(a: string, b: string): int {
    if a == b then 0
    else if a == DEVELOPMENT then 1
    else if b == DEVELOPMENT then -1
    else CompareFrom(Split(a), Split(b), 0)
  }

  /** The first position from `i` where the padded token lists differ, or the end of the longer one. */
  function Differ(a: seq<string>, b: seq<string>, i: nat): (d: nat)
    ensures d >= i
    decreases Longest(a, b) - i
  {
    if i >= Longest(a, b) || Token(a, i) != Token(b, i) then i else Differ(a, b, i + 1)
  }

  lemma {:induction false} DifferAgree(a: seq<string>, b: seq<string>, i: nat)
    ensures Differ(a, b, i) == Differ(b, a, i)
    ensures forall j :: i <= j < Differ(a, b, i) ==> Token(a, j) == Token(b, j)
    decreases Longest(a, b) - i
  {
    if i < Longest(a, b) && Token(a, i) == Token(b, i) {
      DifferAgree(a, b, i + 1);
    }
  }

  /** Past the longer list both sides are padded. */
  lemma {:induction false} CompareFirst(a: seq<string>, b: seq<string>, i: nat)
    ensures CompareFrom(a, b, i) == CompareTokens(Token(a, Differ(a, b, i)), Token(b, Differ(a, b, i)))
    decreases Longest(a, b) - i
  {
    if i < Longest(a, b) {
      TokenOrder(Token(a, i), Token(b, i));
      if Token(a, i) == Token(b, i) {
        CompareFirst(a, b, i + 1);
      }
    }
  }

  lemma CompareAtDiffer(a: seq<string>, b: seq<string>, i: nat)
    ensures CompareFrom(a, b, i) == CompareTokens(Token(a, Differ(a, b, i)), Token(b, Differ(a, b, i)))
    ensures Differ(a, b, i) == Differ(b, a, i)
    ensures forall j :: i <= j < Differ(a, b, i) ==> Token(a, j) == Token(b, j)
  {
    DifferAgree(a, b, i);
    CompareFirst(a, b, i);
  }

  /** The padded token lists are equal. */
  ghost predicate SamePadded(a: string, b: string) {
    forall i: nat :: Token(Split(a), i) == Token(Split(b), i)
  }

  /** Two versions other than "development" compare equal exactly when their trimmed tokens, padded
      with "0", are the same. */
  lemma ZeroIffSamePadded(a: string, b: string)
    requires a != DEVELOPMENT && b != DEVELOPMENT
    ensures Compare(a, b) == 0 <==> SamePadded(a, b)
  {
    var x, y := Split(a), Split(b);
    CompareAtDiffer(x, y, 0);
    var d := Differ(x, y, 0);
    TokenOrder(Token(x, d), Token(y, d));
    if a != b && Compare(a, b) == 0 {
      forall i: nat ensures Token(x, i) == Token(y, i) {
        if i >= d {
          SameFromDiffer(x, y, 0);
        }
      }
    }
  }

  lemma {:induction false} SameFromDiffer(x: seq<string>, y: seq<string>, i: nat)
    requires Token(x, Differ(x, y, i)) == Token(y, Differ(x, y, i))
    ensures Differ(x, y, i) >= Longest(x, y)
    decreases Longest(x, y) - i
  {
    if i < Longest(x, y) && Token(x, i) == Token(y, i) {
      SameFromDiffer(x, y, i + 1);
    }
  }

  /** The versions clash at the first token in which they differ. */
  predicate Twins(a: string, b: string) {
    && a != b && a != DEVELOPMENT && b != DEVELOPMENT
    && var d := Differ(Split(a), Split(b), 0);
       Clash(Token(Split(a), d), Token(Split(b), d))
  }

  /** Compare is antisymmetric on exactly the pairs that are not twins. */
  lemma AntisymmetricUnlessTwins(a: string, b: string)
    ensures Compare(a, b) == -Compare(b, a) <==> !Twins(a, b)
    ensures Twins(a, b) ==> Compare(a, b) == -1 && Compare(b, a) == -1
  {
    CompareAtDiffer(Split(a), Split(b), 0);
    CompareAtDiffer(Split(b), Split(a), 0);
    var d := Differ(Split(a), Split(b), 0);
    TokenOrder(Token(Split(a), d), Token(Split(b), d));
    TokenOrder(Token(Split(b), d), Token(Split(a), d));
  }

  lemma {:induction false} SplitNoDot(s: string)
    requires '.' !in s
    ensures Split(s) == [s]
  {
    if s != "" {
      SplitNoDot(s[1..]);
      assert s == [s[0]] + s[1..];
    }
  }

  /** An instance of the exception: "1" and "01" are each below the other. */
  lemma LeadingZeroTwins()
    ensures Compare("1", "01") == -1 && Compare("01", "1") == -1
  {
    SplitNoDot("1");
    SplitNoDot("01");
    assert Trim("1") == "1" && Trim("01") == "01";
    assert Token(["1"], 0) == "1" && Token(["01"], 0) == "01";
    assert DigitCount("1") == 1 && DigitCount("01") == 2;
    assert "1"[..1] == "1" && "01"[..2] == "01";
    assert Decimal("1") == 1 && Decimal("01") == 1;
  }

  /** "development" is above everything else. */
  lemma DevelopmentOnTop(v: string)
    requires v != DEVELOPMENT
    ensures Compare(DEVELOPMENT, v) == 1 && Compare(v, DEVELOPMENT) == -1
    ensures AtLeast(DEVELOPMENT, v) && !AtLeast(v, DEVELOPMENT)
  {}

  /** Two lists that agree below `d` and differ at `d` have their first difference there. */
  lemma {:induction false} DifferAt(x: seq<string>, y: seq<string>, i: nat, d: nat)
    requires i <= d && Token(x, d) != Token(y, d)
    requires forall j :: i <= j < d ==> Token(x, j) == Token(y, j)
    ensures Differ(x, y, i) == d
    decreases d - i
  {
    if i < d {
      DifferAt(x, y, i + 1, d);
    }
  }

  lemma {:induction false} SameTokens(x: seq<string>, y: seq<string>)
    requires CompareFrom(x, y, 0) == 0
    ensures forall i: nat :: Token(x, i) == Token(y, i)
  {
    CompareAtDiffer(x, y, 0);
    var d := Differ(x, y, 0);
    TokenOrder(Token(x, d), Token(y, d));
    forall i: nat ensures Token(x, i) == Token(y, i) {
      if i >= d {
        SameFromDiffer(x, y, 0);
      }
    }
  }

  /** One token after another, where each pair is in the token order or clashes. */
  lemma {:induction false} ThreeTokens(x: string, y: string, z: string)
    requires CompareTokens(x, y) == -1 && CompareTokens(y, z) == -1
    ensures CompareTokens(x, z) == -1 || (x == z && Clash(x, y))
  {
    TokenOrder(x, y);
    TokenOrder(y, z);
    TokenOrder(x, z);
    if Below(x, y) && Below(y, z) {
      BelowTransitive(x, y, z);
    }
  }

  /** The first and the second clash where they first differ, and there the second meets a third that agrees
      with the first. */
  predicate Meet(x: seq<string>, y: seq<string>, z: seq<string>) {
    var d := Differ(x, y, 0);
    Clash(Token(x, d), Token(y, d)) && Differ(y, z, 0) == d && Token(x, d) == Token(z, d)
  }

  lemma {:induction false} CompareSkips(x: seq<string>, z: seq<string>, i: nat, d: nat)
    requires i <= d && forall j :: i <= j < d ==> Token(x, j) == Token(z, j)
    ensures CompareFrom(x, z, i) == CompareFrom(x, z, d)
    decreases d - i
  {
    if i < d {
      CompareSkips(x, z, i + 1, d);
    }
  }

  lemma {:induction false} ThreeLists(x: seq<string>, y: seq<string>, z: seq<string>)
    requires CompareFrom(x, y, 0) <= 0 && CompareFrom(y, z, 0) <= 0
    ensures CompareFrom(x, z, 0) ==
      if Meet(x, y, z) then CompareFrom(x, z, Differ(x, y, 0) + 1)
      else if CompareFrom(x, y, 0) == 0 && CompareFrom(y, z, 0) == 0 then 0
      else -1
  {
    var d, e := Differ(x, y, 0), Differ(y, z, 0);
    CompareAtDiffer(x, y, 0);
    CompareAtDiffer(y, z, 0);
    TokenOrder(Token(x, d), Token(y, d));
    TokenOrder(Token(y, e), Token(z, e));
    if CompareFrom(x, y, 0) == 0 {
      SameTokens(x, y);
      SameAsFirst(x, y, z, e);
    } else if CompareFrom(y, z, 0) == 0 {
      SameTokens(y, z);
      BelowAt(x, z, d);
    } else if d == e {
      DifferTogether(x, y, z, d);
    } else {
      DifferApart(x, y, z, d, e);
    }
  }

  lemma {:induction false} SameAsFirst(x: seq<string>, y: seq<string>, z: seq<string>, e: nat)
    requires forall i: nat :: Token(x, i) == Token(y, i)
    requires CompareFrom(y, z, 0) == CompareTokens(Token(y, e), Token(z, e)) && -1 <= CompareFrom(y, z, 0) <= 0
    requires forall j :: 0 <= j < e ==> Token(y, j) == Token(z, j)
    ensures CompareFrom(x, z, 0) == CompareFrom(y, z, 0)
  {
    if CompareFrom(y, z, 0) == 0 {
      SameTokens(y, z);
      CompareFirst(x, z, 0);
    } else {
      BelowAt(x, z, e);
    }
  }

  lemma {:induction false} DifferTogether(x: seq<string>, y: seq<string>, z: seq<string>, d: nat)
    requires CompareTokens(Token(x, d), Token(y, d)) == -1 && CompareTokens(Token(y, d), Token(z, d)) == -1
    requires forall j :: 0 <= j < d ==> Token(x, j) == Token(y, j) == Token(z, j)
    ensures CompareFrom(x, z, 0) ==
      if Token(x, d) == Token(z, d) && Clash(Token(x, d), Token(y, d)) then CompareFrom(x, z, d + 1) else -1
  {
    ThreeTokens(Token(x, d), Token(y, d), Token(z, d));
    if Token(x, d) == Token(z, d) {
      CompareSkips(x, z, 0, d + 1);
    } else {
      BelowAt(x, z, d);
    }
  }

  lemma {:induction false} DifferApart(x: seq<string>, y: seq<string>, z: seq<string>, d: nat, e: nat)
    requires d != e && CompareTokens(Token(x, d), Token(y, d)) == -1 && CompareTokens(Token(y, e), Token(z, e)) == -1
    requires forall j :: 0 <= j < d ==> Token(x, j) == Token(y, j)
    requires forall j :: 0 <= j < e ==> Token(y, j) == Token(z, j)
    ensures CompareFrom(x, z, 0) == -1
  {
    BelowAt(x, z, if d < e then d else e);
  }

  lemma {:induction false} BelowAt(x: seq<string>, z: seq<string>, m: nat)
    requires CompareTokens(Token(x, m), Token(z, m)) == -1 && forall j :: 0 <= j < m ==> Token(x, j) == Token(z, j)
    ensures CompareFrom(x, z, 0) == -1
  {
    DifferAt(x, z, 0, m);
    CompareFirst(x, z, 0);
  }

  /** Both pairs are twins, at the same position, where the outer versions have the same token. */
  predicate TwinsBothWays(a: string, b: string, c: string) {
    && Twins(a, b) && Twins(b, c)
    && var d := Differ(Split(a), Split(b), 0);
       Differ(Split(b), Split(c), 0) == d && Token(Split(a), d) == Token(Split(c), d)
  }

  /** What is left to compare of `a` and `c` behind that position. */
  function CompareRest(a: string, b: string, c: string): int {
    CompareFrom(Split(a), Split(c), Differ(Split(a), Split(b), 0) + 1)
  }

  /** Where transitivity fails, and where only its strict form does. */
  lemma {:induction false} TransitiveIff(a: string, b: string, c: string)
    requires Compare(a, b) <= 0 && Compare(b, c) <= 0
    ensures Compare(a, c) > 0 <==> TwinsBothWays(a, b, c) && CompareRest(a, b, c) > 0
    ensures Compare(a, b) < 0 || Compare(b, c) < 0 ==>
      (Compare(a, c) >= 0 <==> TwinsBothWays(a, b, c) && CompareRest(a, b, c) >= 0)
  {
    if a == b || b == c {
      AntisymmetricUnlessTwins(a, a);
    } else if a != DEVELOPMENT && b != DEVELOPMENT && c != DEVELOPMENT {
      ThreeLists(Split(a), Split(b), Split(c));
      MeetIsTwins(a, b, c);
      CompareLists(a, c);
    }
  }

  lemma {:induction false} CompareLists(a: string, c: string)
    requires a != DEVELOPMENT && c != DEVELOPMENT
    ensures Compare(a, c) == CompareFrom(Split(a), Split(c), 0)
  {
    SameLists(Split(a), 0);
  }

  lemma {:induction false} SameLists(x: seq<string>, i: nat)
    ensures CompareFrom(x, x, i) == 0
    decreases |x| - i
  {
    if i < |x| {
      SameLists(x, i + 1);
    }
  }

  lemma {:induction false} MeetIsTwins(a: string, b: string, c: string)
    requires a != DEVELOPMENT && b != DEVELOPMENT && c != DEVELOPMENT
    ensures TwinsBothWays(a, b, c) <==> Meet(Split(a), Split(b), Split(c))
  {}

  /** Transitivity, with strictness, when at least one pair is not twins. */
  lemma Transitive(a: string, b: string, c: string)
    requires Compare(a, b) <= 0 && Compare(b, c) <= 0 && !(Twins(a, b) && Twins(b, c))
    ensures Compare(a, c) <= 0
    ensures Compare(a, b) < 0 || Compare(b, c) < 0 ==> Compare(a, c) < 0
  {
    TransitiveIff(a, b, c);
  }

  /** Versions of two tokens. */
  lemma {:induction false} TwoTokens(t: string, u: string, v: string, w: string)
    requires '.' !in t && '.' !in u && '.' !in v && '.' !in w
    requires t + "." + u != v + "." + w && DEVELOPMENT != t + "." + u && DEVELOPMENT != v + "." + w
    ensures Compare(t + "." + u, v + "." + w) ==
      var c := CompareTokens(Trim(t), Trim(v)); if c != 0 then c else CompareTokens(Trim(u), Trim(w))
  {
    SplitTwo(t, u);
    SplitTwo(v, w);
    var a, b := [t, u], [v, w];
    assert CompareFrom(a, b, 2) == 0;
    assert Token(a, 1) == Trim(u) && Token(b, 1) == Trim(w);
    assert CompareFrom(a, b, 1) == CompareTokens(Trim(u), Trim(w));
  }

  lemma {:induction false} SplitTwo(t: string, u: string)
    requires '.' !in t && '.' !in u
    ensures Split(t + "." + u) == [t, u]
  {
    JoinSplits([t, u]);
    assert [t, u][1..] == [u] && Join([u]) == u;
  }

  lemma {:induction false} OneDigit(t: string)
    requires |t| == 1 && IsDigit(t[0])
    ensures Trim(t) == t && Number(t) == t[0] as int - '0' as int && !Suffixed(t)
  {
    assert t[1..] == "" && t[..1] == t && t[..0] == "";
    assert Decimal(t) == 10 * Decimal(t[..0]) + (t[0] as int - '0' as int);
  }

  lemma {:induction false} LeadingZero(t: string, z: string)
    requires |t| == 1 && IsDigit(t[0]) && z == "0" + t
    ensures Trim(z) == z && Number(z) == t[0] as int - '0' as int && !Suffixed(z)
  {
    assert z[1..] == t && t[1..] == "" && z[..2] == z && z[..1] == "0" && "0"[..0] == "";
    assert DigitCount(z) == 2;
    assert Decimal("0") == 0 && Decimal(z) == t[0] as int - '0' as int;
  }

  /** An instance: "1.5" is below "01.3", that is below "1.4", and yet "1.5" is above "1.4". */
  lemma TransitivityFails()
    ensures Compare("1.5", "01.3") == -1 && Compare("01.3", "1.4") == -1 && Compare("1.5", "1.4") == 1
  {
    OneDigit("1");
    LeadingZero("1", "01");
    OneDigit("5");
    OneDigit("4");
    assert Trim("3") == "3" by { OneDigit("3"); }
    assert "1" + "." + "5" == "1.5" && "01" + "." + "3" == "01.3" && "1" + "." + "4" == "1.4";
    TwoTokens("1", "5", "01", "3");
    TwoTokens("01", "3", "1", "4");
    TwoTokens("1", "5", "1", "4");
  }

  // ------------------------------------------------------------ the regular versions

  /** Not empty; and if all digits, without leading zeros and within an int. */
  predicate RegularToken(t: string) {
    t != "" && (AllDigits(t) ==> (t[0] == '0' ==> t == "0") && Decimal(t) <= MAX_INT)
  }

  predicate Regular(v: string) {
    forall i :: 0 <= i < |Split(v)| ==> RegularToken(Trim(Split(v)[i]))
  }

  /** Decimal numerals without leading zeros are determined by their value. */
  lemma {:induction false} DecimalInjective(s: string, t: string)
    requires AllDigits(s) && AllDigits(t) && Decimal(s) == Decimal(t)
    requires (s != "" ==> s[0] != '0') && (t != "" ==> t[0] != '0')
    ensures s == t
    decreases |s|
  {
    if s != "" {
      DecimalPositive(s);
    }
    if t != "" {
      DecimalPositive(t);
    }
    if s != "" && t != "" {
      var s', t' := s[..|s| - 1], t[..|t| - 1];
      assert s == s' + [s[|s| - 1]] && t == t' + [t[|t| - 1]];
      DecimalInjective(s', t');
    }
  }

  lemma {:induction false} DecimalPositive(s: string)
    requires AllDigits(s) && s != "" && s[0] != '0'
    ensures Decimal(s) > 0
  {
    if |s| > 1 {
      DecimalPositive(s[..|s| - 1]);
    }
  }

  lemma {:induction false} DigitCountAll(s: string)
    ensures DigitCount(s) == |s| <==> AllDigits(s)
  {
    if s != "" {
      DigitCountAll(s[1..]);
      assert AllDigits(s) <==> IsDigit(s[0]) && AllDigits(s[1..]);
    }
  }

  lemma RegularNeverClash(a: string, b: string)
    requires RegularToken(a) && RegularToken(b)
    ensures !Clash(a, b)
  {
    if !Suffixed(a) && !Suffixed(b) && Number(a) == Number(b) {
      DigitCountAll(a);
      DigitCountAll(b);
      assert a[..|a|] == a && b[..|b|] == b;
      if a[0] == '0' || b[0] == '0' {
        ZeroNumeral(a, b);
      } else {
        DecimalInjective(a, b);
      }
    }
  }

  lemma ZeroNumeral(a: string, b: string)
    requires RegularToken(a) && RegularToken(b) && AllDigits(a) && AllDigits(b) && Decimal(a) == Decimal(b)
    requires a[0] == '0' || b[0] == '0'
    ensures a == b
  {
    if a[0] != '0' {
      DecimalPositive(a);
    }
    if b[0] != '0' {
      DecimalPositive(b);
    }
  }

  lemma RegularNeverTwins(a: string, b: string)
    requires Regular(a) && Regular(b)
    ensures !Twins(a, b)
  {
    var d := Differ(Split(a), Split(b), 0);
    RegularNeverClash(Token(Split(a), d), Token(Split(b), d));
  }

  /** version.AtLeast(min). */
  predicate AtLeast(v: string, min: string) {
    Compare(min, v) <= 0
  }

  /** On regular versions Compare is a total preorder and the three results mean what the comment
      says; AtLeast is transitive. */
  lemma RegularTotalPreorder(a: string, b: string, c: string)
    requires Regular(a) && Regular(b) && Regular(c)
    ensures Compare(a, a) == 0
    ensures Compare(a, b) == -Compare(b, a) && -1 <= Compare(a, b) <= 1
    ensures Compare(a, b) <= 0 && Compare(b, c) <= 0 ==> Compare(a, c) <= 0
    ensures AtLeast(a, b) || AtLeast(b, a)
    ensures AtLeast(a, b) && AtLeast(b, c) ==> AtLeast(a, c)
  {
    RegularNeverTwins(a, b);
    RegularNeverTwins(b, c);
    RegularNeverTwins(b, a);
    RegularNeverTwins(c, b);
    AntisymmetricUnlessTwins(a, b);
    CompareAtDiffer(Split(a), Split(b), 0);
    var d := Differ(Split(a), Split(b), 0);
    TokenOrder(Token(Split(a), d), Token(Split(b), d));
    LexLaws(Token(Split(a), d), Token(Split(b), d));
    if Compare(a, b) <= 0 && Compare(b, c) <= 0 {
      Transitive(a, b, c);
    }
    if Compare(c, b) <= 0 && Compare(b, a) <= 0 {
      Transitive(c, b, a);
    }
  }
}
