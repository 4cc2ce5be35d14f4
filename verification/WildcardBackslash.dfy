/** The patterns with backslashes: exactly which of them the translation keeps the meaning of. */
module WildcardBackslash {
  import opened Options
  import opened WildcardSpec

  // ------------------------------------------------------------ shortest matches

  /** One character for each piece that takes exactly one, `any` where it may be any. */
  function Skeleton(ps: seq<Piece>, any: char): string {
    if ps == [] then ""
    else
      var p := ps[0];
      (if p.star || p.atom.Begin? || p.atom.End? then ""
       else if p.atom.NotNewline? then [any]
       else [p.atom.c])
      + Skeleton(ps[1..], any)
  }

  /** At the end of the string nothing more is taken. */
  lemma {:induction false} NothingTakenAtEnd(ps: seq<Piece>, s: string, any: char)
    requires MatchesAt(ps, s, |s|)
    ensures Skeleton(ps, any) == ""
  {
    if ps != [] {
      NothingTakenAtEnd(ps[1..], s, any);
    }
  }

  /** If the pieces match anything, they match their skeleton. */
  lemma {:induction false} SkeletonMatches(ps: seq<Piece>, s: string, i: nat, any: char, q: string)
    requires i <= |s| && MatchesAt(ps, s, i) && any != '\n' && (i == 0 ==> q == "")
    ensures MatchesAt(ps, q + Skeleton(ps, any), |q|)
    decreases |ps|, |s| - i
  {
    if ps != [] {
      var p := ps[0];
      if p.star {
        assert Skeleton(ps, any) == Skeleton(ps[1..], any);
        if MatchesAt(ps[1..], s, i) {
          SkeletonMatches(ps[1..], s, i, any, q);
        } else {
          SkeletonMatches(ps, s, i + 1, any, q);
        }
      } else if p.atom.Begin? {
        assert Skeleton(ps, any) == Skeleton(ps[1..], any);
        SkeletonMatches(ps[1..], s, i, any, q);
      } else if p.atom.End? {
        NothingTakenAtEnd(ps[1..], s, any);
        SkeletonMatches(ps[1..], s, i, any, q);
      } else {
        var ch := if p.atom.NotNewline? then any else p.atom.c;
        SkeletonMatches(ps[1..], s, i + 1, any, q + [ch]);
        assert q + Skeleton(ps, any) == q + [ch] + Skeleton(ps[1..], any);
      }
    }
  }

  /** The pattern without its stars. */
  function Letters(pattern: string): string {
    if pattern == "" then "" else (if pattern[0] == '*' then "" else [pattern[0]]) + Letters(pattern[1..])
  }

  lemma {:induction false} LettersMatch(pattern: string)
    ensures Glob(pattern, Letters(pattern))
  {
    if pattern != "" {
      LettersMatch(pattern[1..]);
      if pattern[0] == '*' {
        assert Letters(pattern) == Letters(pattern[1..]);
      } else {
        assert Letters(pattern)[1..] == Letters(pattern[1..]);
      }
    }
  }

  /** They are the only shortest string that the pattern means. */
  lemma {:induction false} LettersShortest(pattern: string, s: string)
    requires Glob(pattern, s)
    ensures |s| >= |Letters(pattern)| && (|s| == |Letters(pattern)| ==> s == Letters(pattern))
    decreases |pattern|, |s|
  {
    if pattern != "" {
      if pattern[0] == '*' {
        if Glob(pattern[1..], s) {
          LettersShortest(pattern[1..], s);
        } else {
          LettersShortest(pattern, s[1..]);
        }
      } else {
        LettersShortest(pattern[1..], s[1..]);
        assert s == [s[0]] + s[1..];
      }
    }
  }

  lemma {:induction false} LettersOfAppended(pattern: string)
    ensures Letters(pattern + "*") == Letters(pattern)
  {
    if pattern == "" {
      assert "*"[1..] == "" && pattern + "*" == "*";
    } else {
      assert (pattern + "*")[1..] == pattern[1..] + "*";
      LettersOfAppended(pattern[1..]);
    }
  }

  // ------------------------------------------------------------ what a backslash costs

  lemma {:induction false} SkeletonJoin(front: seq<Piece>, ps: seq<Piece>, any: char)
    requires 1 <= |front| <= 2
    ensures Skeleton(front + ps, any) == Skeleton(front, any) + Skeleton(ps, any)
  {
    var none: seq<Piece> := [];
    assert Skeleton(none, any) == "";
    assert (front + ps)[1..] == front[1..] + ps;
    if |front| == 2 {
      assert front[1..] == [front[1]] && [front[1]][1..] == none;
      SkeletonJoin([front[1]], ps, any);
      Regroup(Skeleton([front[0]], any), Skeleton([front[1]], any), Skeleton(ps, any));
      assert [front[0]][1..] == none;
    } else {
      assert front[1..] == none && none + ps == ps;
    }
  }

  /** A backslash and the next character are taken as two characters, the second of them freely chosen or
      a closing bracket, or as fewer. */
  lemma {:induction false} BackslashSkeleton(c: char, any: char)
    requires BackslashPieces(c).Some?
    ensures var front := Skeleton(BackslashPieces(c).value, any);
      && 1 <= |BackslashPieces(c).value| <= 2
      && (c == ']' ==> front == "\\]")
      && (c == '.' ==> front == ['\\', any])
      && (c != ']' && c != '.' ==> |front| <= 1 && (c == '*' ==> |front| == 0))
  {
    var ps := BackslashPieces(c).value;
    var none: seq<Piece> := [];
    assert Skeleton(none, any) == "";
    if |ps| == 1 {
      assert ps[1..] == none;
    } else {
      assert ps[1..] == [ps[1]] && [ps[1]][1..] == none;
      assert Skeleton([ps[1]], any) == Skeleton([ps[1]], any) + "";
    }
  }

  /** The tail of the emitted text: it begins with a wildcard if the pattern ends in a backslash. */
  predicate IsTail(pattern: string, t: string) {
    (t == "$" || t == ".*$") && (EndsWith(pattern, '\\') ==> t == ".*$")
  }

  lemma {:induction false} TailSkeleton(t: string, any: char)
    requires t == "$" || t == ".*$"
    ensures Parse(t).Some? && Skeleton(Parse(t).value, any) == "" && !IsRepeat(t[0])
  {
    ParseEnd("$");
    assert ".*$"[2..] == "$";
    var end, none: seq<Piece> := [Piece(End, false)], [];
    assert Parse(t) == Some(if t == "$" then end else [Piece(NotNewline, true)] + end);
    assert end[1..] == none && ([Piece(NotNewline, true)] + end)[1..] == end;
    assert Skeleton(none, any) == "" && Skeleton(end, any) == "";
  }

  /** A pattern that is a single backslash. */
  lemma {:induction false} LoneBackslash(any: char)
    ensures Parse("\\" + ".*$").Some? && Skeleton(Parse("\\" + ".*$").value, any) == ""
  {
    TailSkeleton("$", any);
    var u := "\\" + ".*$";
    assert u[3..] == "$";
    var ps := [Piece(Literal('.'), true)] + Parse("$").value;
    assert Parse(u) == Some(ps) && ps[1..] == Parse("$").value;
  }

  /** The pieces take no more characters than the pattern has letters; and where they take the same ones,
      every backslash is followed by a closing bracket. */
  lemma {:induction false} SkeletonShort(pattern: string, t: string, any: char)
    requires Tame(pattern) && IsTail(pattern, t) && any != '.'
    requires Parse(Substitute(pattern, Translated) + t).Some?
    ensures var front := Skeleton(Parse(Substitute(pattern, Translated) + t).value, any);
      |front| <= |Letters(pattern)| && (front == Letters(pattern) ==> Bracketed(pattern))
    decreases |pattern|
  {
    TailSkeleton(t, any);
    if pattern == "" {
      assert Substitute(pattern, Translated) + t == t;
    } else if pattern[0] != '\\' {
      OtherShort(pattern, t, any);
    } else if |pattern| == 1 {
      assert Substitute(pattern[1..], Translated) == "" && Substitute(pattern, Translated) == "\\";
      LoneBackslash(any);
    } else {
      BackslashShort(pattern, t, any);
    }
  }

  lemma {:induction false} OtherShort(pattern: string, t: string, any: char)
    requires Tame(pattern) && IsTail(pattern, t) && any != '.' && pattern != "" && pattern[0] != '\\'
    requires Parse(Substitute(pattern, Translated) + t).Some?
    ensures var front := Skeleton(Parse(Substitute(pattern, Translated) + t).value, any);
      |front| <= |Letters(pattern)| && (front == Letters(pattern) ==> Bracketed(pattern))
    decreases |pattern|, 0
  {
    TailSkeleton(t, any);
    OtherParse(pattern, t);
    SkeletonShort(pattern[1..], t, any);
    OneMore(pattern, Parse(Substitute(pattern[1..], Translated) + t).value, any);
  }

  lemma {:induction false} OtherParse(pattern: string, t: string)
    requires Tame(pattern) && pattern != "" && pattern[0] != '\\' && (t != "" ==> !IsRepeat(t[0]))
    ensures Parse(Substitute(pattern, Translated) + t) ==
      match Parse(Substitute(pattern[1..], Translated) + t)
      case None => None
      case Some(ps) => Some([PieceOf(pattern[0])] + ps)
  {
    NoOperatorFirst(pattern[1..], t);
    ParseOne(pattern[0], Substitute(pattern[1..], Translated) + t);
    Regroup(Translated(pattern[0]), Substitute(pattern[1..], Translated), t);
  }

  lemma {:induction false} OneMore(pattern: string, ps: seq<Piece>, any: char)
    requires pattern != "" && pattern[0] != '\\'
    requires |Skeleton(ps, any)| <= |Letters(pattern[1..])|
    requires Skeleton(ps, any) == Letters(pattern[1..]) ==> Bracketed(pattern[1..])
    ensures var front := Skeleton([PieceOf(pattern[0])] + ps, any);
      |front| <= |Letters(pattern)| && (front == Letters(pattern) ==> Bracketed(pattern))
  {
    var all := [PieceOf(pattern[0])] + ps;
    assert all[1..] == ps;
    if pattern[0] == '*' {
      assert "" + Skeleton(ps, any) == Skeleton(ps, any) && "" + Letters(pattern[1..]) == Letters(pattern[1..]);
    } else {
      SameRest([pattern[0]], Skeleton(ps, any), Letters(pattern[1..]));
    }
    if Bracketed(pattern[1..]) {
      BracketedMore(pattern);
    }
  }

  lemma SameRest(a: string, b: string, c: string)
    ensures a + b == a + c ==> b == c
  {
    assert (a + b)[|a|..] == b && (a + c)[|a|..] == c;
  }

  lemma BracketedMore(pattern: string)
    requires pattern != "" && pattern[0] != '\\' && Bracketed(pattern[1..])
    ensures Bracketed(pattern)
  {
    assert forall i :: 1 <= i < |pattern| ==> pattern[i] == pattern[1..][i - 1];
  }

  lemma {:induction false} BackslashShort(pattern: string, t: string, any: char)
    requires Tame(pattern) && IsTail(pattern, t) && any != '.' && |pattern| > 1 && pattern[0] == '\\'
    requires Parse(Substitute(pattern, Translated) + t).Some?
    ensures var front := Skeleton(Parse(Substitute(pattern, Translated) + t).value, any);
      |front| <= |Letters(pattern)| && (front == Letters(pattern) ==> Bracketed(pattern))
    decreases |pattern|, 0
  {
    var c, rest := pattern[1], Substitute(pattern[2..], Translated) + t;
    TailSkeleton(t, any);
    NoOperatorFirst(pattern[2..], t);
    ParseBackslash(c, rest);
    SplitTwo(pattern, t);
    SkeletonShort(pattern[2..], t, any);
    TwoMore(pattern, Parse(rest).value, any);
  }

  lemma {:induction false} TwoMore(pattern: string, ps: seq<Piece>, any: char)
    requires |pattern| > 1 && pattern[0] == '\\' && BackslashPieces(pattern[1]).Some? && any != '.'
    requires |Skeleton(ps, any)| <= |Letters(pattern[2..])|
    requires Skeleton(ps, any) == Letters(pattern[2..]) ==> Bracketed(pattern[2..])
    ensures var front := Skeleton(BackslashPieces(pattern[1]).value + ps, any);
      |front| <= |Letters(pattern)| && (front == Letters(pattern) ==> Bracketed(pattern))
  {
    var c := pattern[1];
    BackslashSkeleton(c, any);
    SkeletonJoin(BackslashPieces(c).value, ps, any);
    LettersOfTwo(pattern);
    var front := Skeleton(BackslashPieces(c).value + ps, any);
    if front == Letters(pattern) {
      assert c == ']' || c == '.';
      assert front[1] == c;
      assert front[2..] == Skeleton(ps, any) && Letters(pattern)[2..] == Letters(pattern[2..]);
      assert forall i :: 2 <= i < |pattern| ==> pattern[i] == pattern[2..][i - 2];
    }
  }

  lemma {:induction false} LettersOfTwo(pattern: string)
    requires |pattern| > 1 && pattern[0] == '\\'
    ensures Letters(pattern) == "\\" + (if pattern[1] == '*' then "" else [pattern[1]]) + Letters(pattern[2..])
  {
    assert pattern[1..][1..] == pattern[2..] && pattern[1..][0] == pattern[1];
  }

  // ------------------------------------------------------------ exactly which patterns

  lemma {:induction false} TextTail(pattern: string) returns (t: string)
    ensures IsTail(pattern, t) && WildcardPatternToRegExp(pattern) == "^" + (Substitute(pattern, Translated) + t)
    ensures Parse(WildcardPatternToRegExp(pattern)) ==
      match Parse(Substitute(pattern, Translated) + t)
      case None => None
      case Some(ps) => Some([Piece(Begin, false)] + ps)
  {
    TranslationText(pattern);
    t := if EndsWith(pattern, '/') || EndsWith(pattern, '\\') then ".*$" else "$";
    NoOperatorFirst(pattern, t);
    var u := Substitute(pattern, Translated) + t;
    assert WildcardPatternToRegExp(pattern) == "^" + u && ("^" + u)[1..] == u;
  }

  /** MatchWildcardPattern decides what the pattern means. */
  ghost predicate MeaningKept(pattern: string) {
    forall s :: MatchWildcardPattern(pattern, s) == Some(Glob(Complete(pattern), s))
  }

  /** If the meaning is kept, the shortest strings agree, and so every backslash is followed by a bracket. */
  lemma {:induction false} KeptIsBracketed(pattern: string)
    requires Tame(pattern) && Parse(WildcardPatternToRegExp(pattern)).Some? && MeaningKept(pattern)
    ensures Bracketed(pattern)
  {
    var t := TextTail(pattern);
    var inner := Parse(Substitute(pattern, Translated) + t).value;
    var ps := [Piece(Begin, false)] + inner;
    var letters := Letters(pattern);
    LettersOfAppended(pattern);
    LettersMatch(Complete(pattern));
    assert MatchWildcardPattern(pattern, letters) == Some(true);
    var i: nat :| i <= |letters| && MatchesAt(ps, letters, i);
    assert ps[1..] == inner;
    SkeletonMatches(ps, letters, i, 'x', "");
    var skeleton := Skeleton(ps, 'x');
    assert "" + skeleton == skeleton && skeleton == Skeleton(inner, 'x');
    assert Search(ps, skeleton);
    assert MatchWildcardPattern(pattern, skeleton) == Some(true);
    LettersShortest(Complete(pattern), skeleton);
    SkeletonShort(pattern, t, 'x');
  }

  /** Among the patterns without placeholders whose translation compiles, MatchWildcardPattern keeps the
      meaning of exactly those in which every backslash is followed by a closing bracket. */
  lemma {:induction false} MeaningKeptIff(pattern: string)
    requires Tame(pattern) && Parse(WildcardPatternToRegExp(pattern)).Some?
    ensures MeaningKept(pattern) <==> Bracketed(pattern)
  {
    if Bracketed(pattern) {
      forall s
        ensures MatchWildcardPattern(pattern, s) == Some(Glob(Complete(pattern), s))
      {
        MatchIsGlob(pattern, s);
      }
    } else if MeaningKept(pattern) {
      KeptIsBracketed(pattern);
    }
  }

  /** A backslash and any run, as a wildcard pattern. */
  const BACKSLASH_ANY := "\\*"

  lemma {:induction false} BackslashTranslates()
    ensures WildcardPatternToRegExp(BACKSLASH_ANY) == "^\\.*$"
  {
    TranslationText(BACKSLASH_ANY);
    assert BACKSLASH_ANY[1..] == "*" && "*"[1..] == "";
    assert Substitute("*", Translated) == ".*";
    assert Substitute(BACKSLASH_ANY, Translated) == "\\" + ".*";
  }

  lemma {:induction false} BackslashParses()
    ensures Parse("^\\.*$") == Some([Piece(Begin, false), Piece(Literal('.'), true), Piece(End, false)])
  {
    ParseEnd("$");
    assert "\\.*$"[3..] == "$";
    var rest := [Piece(Literal('.'), true)] + [Piece(End, false)];
    assert Parse("\\.*$") == Some(rest);
    assert "^\\.*$"[1..] == "\\.*$";
    assert [Piece(Begin, false)] + rest == [Piece(Begin, false), Piece(Literal('.'), true), Piece(End, false)];
  }

  /** An instance: the translation of this pattern escapes a dot, so it matches the empty string and not a
      backslash, the opposite of what the pattern means. */
  lemma {:induction false} BackslashChangesMeaning()
    ensures Glob(BACKSLASH_ANY, "\\") && MatchWildcardPattern(BACKSLASH_ANY, "\\") == Some(false)
    ensures !Glob(BACKSLASH_ANY, "") && MatchWildcardPattern(BACKSLASH_ANY, "") == Some(true)
  {
    var ps := [Piece(Begin, false), Piece(Literal('.'), true), Piece(End, false)];
    BackslashTranslates();
    BackslashParses();
    assert ps[1..][1..] == [Piece(End, false)] && [Piece(End, false)][1..] == [];
    assert BACKSLASH_ANY[1..] == "*" && "*"[1..] == "" && "\\"[1..] == "";
    assert MatchesAt(ps, "", 0);
    assert !MatchesAt(ps[1..], "\\", 0);
  }
}
