/** Wildcard patterns, their direct meaning, and the meaning of the regular expressions they
    are translated into. */
module WildcardSpec {
  import opened Options

  // ------------------------------------------------------------ text

  /** strings.ReplaceAll with a one-character old string. */
  function ReplaceAll(s: string, c: char, with: string): string {
    if s == "" then "" else (if s[0] == c then with else [s[0]]) + ReplaceAll(s[1..], c, with)
  }

  const SPECIAL: seq<char> := ['.', '^', '$', '+', '[', ']']
  const WILDCARD := ".*"

  /** The first `n` replacements of EscapeSpecialChars, one after the other. */
  function EscapeFirst(path: string, n: nat): string
    requires n <= |SPECIAL|
  {
    if n == 0 then path
    else ReplaceAll(EscapeFirst(path, n - 1), SPECIAL[n - 1], ['\\', SPECIAL[n - 1]])
  }

  function EscapeSpecialChars(path: string): string {
    EscapeFirst(path, |SPECIAL|)
  }

  predicate EndsWith(s: string, c: char) {
    s != "" && s[|s| - 1] == c
  }

  function WildcardPatternToRegExp(pattern: string): string {
    var path := ReplaceAll(EscapeSpecialChars(pattern), '*', WILDCARD);
    var open := if EndsWith(path, '/') || EndsWith(path, '\\') then path + WILDCARD else path;
    "^" + open + "$"
  }

  // ------------------------------------------------------------ one simultaneous substitution

  /** Every character goes to a text of its own. */
  function Substitute(s: string, f: char -> string): string {
    if s == "" then "" else f(s[0]) + Substitute(s[1..], f)
  }

  function Escaped(n: nat, c: char): string
    requires n <= |SPECIAL|
  {
    if c in SPECIAL[..n] then ['\\', c] else [c]
  }

  function Translated(c: char): string {
    if c == '*' then WILDCARD else Escaped(|SPECIAL|, c)
  }

  lemma Regroup<T>(a: seq<T>, b: seq<T>, c: seq<T>)
    ensures (a + b) + c == a + (b + c)
  {}

  lemma {:induction false} ReplaceAllSplit(a: string, b: string, c: char, with: string)
    ensures ReplaceAll(a + b, c, with) == ReplaceAll(a, c, with) + ReplaceAll(b, c, with)
  {
    if a == "" {
      assert a + b == b;
    } else {
      assert (a + b)[1..] == a[1..] + b;
      ReplaceAllSplit(a[1..], b, c, with);
    }
  }

  /** A replacement after a substitution is a substitution. */
  lemma {:induction false} ReplaceSubstituted(s: string, f: char -> string, g: char -> string, c: char, with: string)
    requires forall x :: g(x) == ReplaceAll(f(x), c, with)
    ensures ReplaceAll(Substitute(s, f), c, with) == Substitute(s, g)
  {
    if s != "" {
      ReplaceAllSplit(f(s[0]), Substitute(s[1..], f), c, with);
      ReplaceSubstituted(s[1..], f, g, c, with);
    }
  }

  lemma {:induction false} SubstituteIdentity(s: string, f: char -> string)
    requires forall x :: f(x) == [x]
    ensures Substitute(s, f) == s
  {
    if s != "" {
      SubstituteIdentity(s[1..], f);
    }
  }

  lemma {:induction false} ReplaceOne(x: char, c: char, with: string)
    ensures ReplaceAll([x], c, with) == if x == c then with else [x]
    ensures forall y :: ReplaceAll([y, x], c, with) == (if y == c then with else [y]) + (if x == c then with else [x])
  {
    assert [x][1..] == "" && forall y :: [y, x][1..] == [x];
  }

  /** The first `n` sequential replacements are one substitution: no replacement produces a character
      that a later one replaces. */
  lemma {:induction false} EscapeIsSubstitution(path: string, n: nat)
    requires n <= |SPECIAL|
    ensures EscapeFirst(path, n) == Substitute(path, c => Escaped(n, c))
  {
    if n == 0 {
      SubstituteIdentity(path, c => Escaped(0, c));
    } else {
      EscapeIsSubstitution(path, n - 1);
      var special := SPECIAL[n - 1];
      forall x: char
        ensures Escaped(n, x) == ReplaceAll(Escaped(n - 1, x), special, ['\\', special])
      {
        ReplaceOne(x, special, ['\\', special]);
      }
      ReplaceSubstituted(path, c => Escaped(n - 1, c), c => Escaped(n, c), special, ['\\', special]);
    }
  }

  /** The seven sequential replacements equal one simultaneous substitution, on every pattern. */
  lemma {:induction false} SequentialIsSimultaneous(pattern: string)
    ensures ReplaceAll(EscapeSpecialChars(pattern), '*', WILDCARD) == Substitute(pattern, Translated)
  {
    EscapeIsSubstitution(pattern, |SPECIAL|);
    forall x: char
      ensures Translated(x) == ReplaceAll(Escaped(|SPECIAL|, x), '*', WILDCARD)
    {
      ReplaceOne(x, '*', WILDCARD);
    }
    ReplaceSubstituted(pattern, c => Escaped(|SPECIAL|, c), Translated, '*', WILDCARD);
  }

  lemma {:induction false} SubstituteLast(s: string)
    ensures Substitute(s, Translated) == "" <==> s == ""
    ensures s != "" && s[|s| - 1] != '*' ==> EndsWith(Substitute(s, Translated), s[|s| - 1])
    ensures EndsWith(s, '*') ==> EndsWith(Substitute(s, Translated), '*')
  {
    if |s| > 1 {
      SubstituteLast(s[1..]);
    }
  }

  /** The text the translation emits: one substitution between anchors, with an implicit wildcard
      after a final slash or backslash. */
  lemma {:induction false} TranslationText(pattern: string)
    ensures WildcardPatternToRegExp(pattern) ==
      "^" + Substitute(pattern, Translated)
      + (if EndsWith(pattern, '/') || EndsWith(pattern, '\\') then WILDCARD else "") + "$"
  {
    SequentialIsSimultaneous(pattern);
    SubstituteLast(pattern);
    var t := Substitute(pattern, Translated);
    assert "^" + (t + WILDCARD) + "$" == "^" + t + WILDCARD + "$";
    assert "^" + t + "" + "$" == "^" + t + "$";
  }

  // ------------------------------------------------------------ regular expressions

  /** The part of Go's regular expression syntax modelled: literals, escaped punctuation, any character
      but newline, anchors, star and plus. */
  datatype Atom = Literal(c: char) | NotNewline | Begin | End
  datatype Piece = Piece(atom: Atom, star: bool)

  /** Go takes a backslash before an ASCII character that is no letter or digit as that character. */
  predicate Escapable(c: char) {
    c < 128 as char && !('0' <= c <= '9' || 'A' <= c <= 'Z' || 'a' <= c <= 'z')
  }

  predicate IsRepeat(c: char) { c == '*' || c == '+' }

  /** What the translation leaves alone, but for the backslash, and Go's syntax gives a meaning. */
  predicate IsPlaceholder(c: char) {
    c == '(' || c == ')' || c == '{' || c == '}' || c == '?' || c == '|'
  }

  /** The atom at the front of the text and its length; operators outside the part are refused. */
  function ParseAtom(t: string): Option<(Atom, nat)>
    requires t != ""
  {
    if t[0] == '^' then Some((Begin, 1))
    else if t[0] == '$' then Some((End, 1))
    else if t[0] == '.' then Some((NotNewline, 1))
    else if t[0] == '\\' then if |t| > 1 && Escapable(t[1]) then Some((Literal(t[1]), 2)) else None
    else if IsRepeat(t[0]) || IsPlaceholder(t[0]) || t[0] == '[' then None
    else Some((Literal(t[0]), 1))
  }

  function Parse(t: string): Option<seq<Piece>>
    decreases |t|
  {
    if t == "" then Some([])
    else match ParseAtom(t)
      case None => None
      case Some((atom, n)) =>
        var star, plus := n < |t| && t[n] == '*', n < |t| && t[n] == '+';
        if (star || plus) && (atom.Begin? || atom.End?) then None
        else match Parse(t[if star || plus then n + 1 else n..])
          case None => None
          case Some(rest) =>
            // One or more is one and then any number.
            Some((if plus then [Piece(atom, false), Piece(atom, true)] else [Piece(atom, star)]) + rest)
  }

  /** The atom takes the character. */
  predicate Takes(a: Atom, c: char) {
    match a
    case Literal(x) => c == x
    case NotNewline => c != '\n'
    case _ => false
  }

  /** The pieces match some stretch of `s` that starts at position `i`. */
  predicate MatchesAt(ps: seq<Piece>, s: string, i: nat)
    requires i <= |s|
    decreases |ps|, |s| - i
  {
    if ps == [] then true
    else
      var p := ps[0];
      if p.star then
        MatchesAt(ps[1..], s, i) || (i < |s| && Takes(p.atom, s[i]) && MatchesAt(ps, s, i + 1))
      else if p.atom.Begin? then i == 0 && MatchesAt(ps[1..], s, i)
      else if p.atom.End? then i == |s| && MatchesAt(ps[1..], s, i)
      else i < |s| && Takes(p.atom, s[i]) && MatchesAt(ps[1..], s, i + 1)
  }

  /** MatchString: somewhere in `s` the pieces match. */
  ghost predicate Search(ps: seq<Piece>, s: string) {
    exists i: nat :: i <= |s| && MatchesAt(ps, s, i)
  }

  // ------------------------------------------------------------ the direct meaning

  /** A star stands for any run without newlines, every other character for itself. */
  predicate Glob(pattern: string, s: string)
    decreases |pattern|, |s|
  {
    if pattern == "" then s == ""
    else if pattern[0] == '*' then
      Glob(pattern[1..], s) || (s != "" && s[0] != '\n' && Glob(pattern, s[1..]))
    else s != "" && s[0] == pattern[0] && Glob(pattern[1..], s[1..])
  }

  /** A run of `k` characters that a star takes. */
  predicate StarTakes(pattern: string, s: string, k: nat)
    requires pattern != ""
  {
    k <= |s| && '\n' !in s[..k] && Glob(pattern[1..], s[k..])
  }

  lemma {:induction false} TakesOneMore(pattern: string, s: string, k: nat)
    requires pattern != "" && s != ""
    ensures StarTakes(pattern, s, k + 1) <==> s[0] != '\n' && StarTakes(pattern, s[1..], k)
  {
    if k + 1 <= |s| {
      assert s[k + 1..] == s[1..][k..] && s[..k + 1] == [s[0]] + s[1..][..k];
    }
  }

  /** The star in closed form: some run without newlines, and then the rest of the pattern. */
  lemma {:induction false} GlobStar(pattern: string, s: string)
    requires pattern != "" && pattern[0] == '*'
    ensures Glob(pattern, s) <==> exists k: nat :: StarTakes(pattern, s, k)
  {
    assert s[0..] == s && s[..0] == "";
    assert StarTakes(pattern, s, 0) <==> Glob(pattern[1..], s);
    if s != "" {
      GlobStar(pattern, s[1..]);
      if k: nat :| StarTakes(pattern, s, k) && k > 0 {
        TakesOneMore(pattern, s, k - 1);
      }
      if k: nat :| StarTakes(pattern, s[1..], k) && s[0] != '\n' {
        TakesOneMore(pattern, s, k);
      }
    }
  }

  /** A final slash means everything below it. */
  function Complete(pattern: string): string {
    if EndsWith(pattern, '/') then pattern + "*" else pattern
  }

  predicate Tame(pattern: string) {
    forall i :: 0 <= i < |pattern| ==> !IsPlaceholder(pattern[i])
  }

  /** Every backslash is followed by a closing bracket. A pattern without backslashes is one such. */
  predicate Bracketed(pattern: string) {
    forall i :: 0 <= i < |pattern| && pattern[i] == '\\' ==> i + 1 < |pattern| && pattern[i + 1] == ']'
  }

  // ------------------------------------------------------------ the translation preserves meaning

  function PieceOf(c: char): Piece {
    if c == '*' then Piece(NotNewline, true) else Piece(Literal(c), false)
  }

  function Pieces(pattern: string): seq<Piece> {
    if pattern == "" then [] else [PieceOf(pattern[0])] + Pieces(pattern[1..])
  }

  predicate IsSpecial(c: char) { c == '.' || c == '^' || c == '$' || c == '+' || c == '[' || c == ']' }

  lemma {:induction false} TranslatedIs(c: char)
    ensures Translated(c) ==
      if c == '*' then ".*" else if IsSpecial(c) then ['\\', c] else [c]
  {
    assert SPECIAL[..|SPECIAL|] == SPECIAL;
  }

  /** A translated character in front of a text parses to its piece. */
  lemma {:induction false} ParseOne(c: char, t: string)
    requires c != '\\' && !IsPlaceholder(c) && (t != "" ==> !IsRepeat(t[0]))
    ensures Parse(Translated(c) + t) ==
      match Parse(t)
      case None => None
      case Some(ps) => Some([PieceOf(c)] + ps)
  {
    var u := Translated(c) + t;
    TranslatedIs(c);
    if c == '*' || IsSpecial(c) {
      assert u[2..] == t;
    } else {
      assert u[1..] == t;
    }
  }

  /** No translated text starts with an operator. */
  lemma {:induction false} NoOperatorFirst(pattern: string, t: string)
    requires t != "" ==> !IsRepeat(t[0])
    ensures var u := Substitute(pattern, Translated) + t; u != "" ==> !IsRepeat(u[0])
  {
    if pattern != "" {
      TranslatedIs(pattern[0]);
      assert !IsRepeat(Translated(pattern[0])[0]);
    }
  }

  /** What a backslash and the translation of the next character parse to, before the rest. */
  function BackslashPieces(c: char): Option<seq<Piece>> {
    var backslash := Piece(Literal('\\'), false);
    if c == '*' then Some([Piece(Literal('.'), true)])
    else if c == '+' then Some([backslash, Piece(Literal('\\'), true)])
    else if c == '.' then Some([backslash, Piece(NotNewline, false)])
    else if c == '^' then Some([backslash, Piece(Begin, false)])
    else if c == '$' then Some([backslash, Piece(End, false)])
    else if c == ']' then Some([backslash, Piece(Literal(']'), false)])
    else if c != '[' && Escapable(c) then Some([Piece(Literal(c), false)])
    else None
  }

  lemma {:induction false} ParseBackslash(c: char, t: string)
    requires t != "" ==> !IsRepeat(t[0])
    ensures Parse("\\" + Translated(c) + t) ==
      match BackslashPieces(c)
      case None => None
      case Some(front) =>
        match Parse(t)
        case None => None
        case Some(ps) => Some(front + ps)
  {
    TranslatedIs(c);
    if c == '*' || c == '+' {
      BackslashRepeat(c, t);
    } else if IsSpecial(c) {
      BackslashSpecial(c, t);
    } else {
      var u := "\\" + [c] + t;
      assert u[2..] == t;
    }
  }

  /** The star becomes a repeated dot, the plus repeats the backslash. */
  lemma {:induction false} BackslashRepeat(c: char, t: string)
    requires IsRepeat(c)
    ensures var u := "\\" + (if c == '*' then ".*" else "\\+") + t;
      Parse(u) ==
        match Parse(t)
        case None => None
        case Some(ps) => Some(BackslashPieces(c).value + ps)
  {
    var u := "\\" + (if c == '*' then ".*" else "\\+") + t;
    assert u[3..] == t;
  }

  /** Any other special character: a backslash, and the character unescaped. */
  lemma {:induction false} BackslashSpecial(c: char, t: string)
    requires IsSpecial(c) && c != '+' && (t != "" ==> !IsRepeat(t[0]))
    ensures var u := "\\" + ['\\', c] + t;
      Parse(u) ==
        if c == '[' || Parse(t).None? then None
        else Some(BackslashPieces(c).value + Parse(t).value)
  {
    var u := "\\" + ['\\', c] + t;
    assert u[2..] == [c] + t;
    ParseSpecialAlone(c, t);
    if Parse(t).Some? && c != '[' {
      var front := BackslashPieces(c).value;
      Regroup([front[0]], [front[1]], Parse(t).value);
      assert front == [front[0]] + [front[1]];
    }
  }

  /** An unescaped special character other than the plus. */
  lemma {:induction false} ParseSpecialAlone(c: char, t: string)
    requires IsSpecial(c) && c != '+' && (t != "" ==> !IsRepeat(t[0]))
    ensures Parse([c] + t) ==
      if c == '[' then None
      else match Parse(t)
        case None => None
        case Some(ps) =>
          Some([Piece(if c == '.' then NotNewline else if c == '^' then Begin else if c == '$' then End else Literal(c), false)] + ps)
  {
    assert ([c] + t)[1..] == t;
  }

  /** A backslash and a closing bracket in front stand for themselves. */
  lemma {:induction false} ParseBracket(pattern: string, t: string, ps: seq<Piece>)
    requires |pattern| > 1 && pattern[0] == '\\' && pattern[1] == ']' && (t != "" ==> !IsRepeat(t[0]))
    requires Parse(Substitute(pattern[2..], Translated) + t) == Some(ps)
    ensures Parse(Substitute(pattern, Translated) + t) == Some(BackslashPieces(']').value + ps)
  {
    NoOperatorFirst(pattern[2..], t);
    ParseBackslash(']', Substitute(pattern[2..], Translated) + t);
    SplitTwo(pattern, t);
  }

  lemma {:induction false} PiecesBracket(pattern: string, ps: seq<Piece>)
    requires |pattern| > 1 && pattern[0] == '\\' && pattern[1] == ']'
    ensures Pieces(pattern) + ps == BackslashPieces(']').value + (Pieces(pattern[2..]) + ps)
  {
    assert pattern[1..][1..] == pattern[2..] && pattern[1..][0] == ']';
    assert Pieces(pattern) == [PieceOf('\\')] + ([PieceOf(']')] + Pieces(pattern[2..]));
  }

  lemma {:induction false} ParseNext(pattern: string, t: string, ps: seq<Piece>)
    requires pattern != "" && pattern[0] != '\\' && !IsPlaceholder(pattern[0]) && (t != "" ==> !IsRepeat(t[0]))
    requires Parse(Substitute(pattern[1..], Translated) + t) == Some(Pieces(pattern[1..]) + ps)
    ensures Parse(Substitute(pattern, Translated) + t) == Some(Pieces(pattern) + ps)
  {
    var rest := Substitute(pattern[1..], Translated) + t;
    NoOperatorFirst(pattern[1..], t);
    ParseOne(pattern[0], rest);
    Regroup(Translated(pattern[0]), Substitute(pattern[1..], Translated), t);
    Regroup([PieceOf(pattern[0])], Pieces(pattern[1..]), ps);
  }

  lemma {:induction false} SplitTwo(pattern: string, t: string)
    requires |pattern| > 1 && pattern[0] == '\\'
    ensures Substitute(pattern, Translated) + t ==
      "\\" + Translated(pattern[1]) + (Substitute(pattern[2..], Translated) + t)
  {
    TranslatedIs('\\');
    assert pattern[1..][1..] == pattern[2..] && pattern[1..][0] == pattern[1];
  }

  lemma {:induction false} ParseTranslated(pattern: string, t: string, ps: seq<Piece>)
    requires Tame(pattern) && Bracketed(pattern) && Parse(t) == Some(ps) && (t != "" ==> !IsRepeat(t[0]))
    ensures Parse(Substitute(pattern, Translated) + t) == Some(Pieces(pattern) + ps)
  {
    if pattern == "" {
      assert Substitute(pattern, Translated) + t == t && Pieces(pattern) + ps == ps;
    } else if pattern[0] == '\\' {
      ParseTranslated(pattern[2..], t, ps);
      ParseBracket(pattern, t, Pieces(pattern[2..]) + ps);
      PiecesBracket(pattern, ps);
    } else {
      ParseTranslated(pattern[1..], t, ps);
      ParseNext(pattern, t, ps);
    }
  }

  lemma {:induction false} SubstituteSplit(a: string, b: string)
    ensures Substitute(a + b, Translated) == Substitute(a, Translated) + Substitute(b, Translated)
  {
    if a == "" {
      assert a + b == b;
    } else {
      assert (a + b)[1..] == a[1..] + b;
      SubstituteSplit(a[1..], b);
    }
  }

  lemma {:induction false} ParseEnd(t: string)
    requires |t| == 1 && t[0] == '$'
    ensures Parse(t) == Some([Piece(End, false)])
  {
    assert t[1..] == "";
    var last := [Piece(End, false)];
    assert Parse(t[1..]) == Some([]) && last + [] == last;
  }

  /** The emitted text is a regular expression of the part: the pieces of the completed pattern
      between anchors. */
  lemma {:induction false} TranslationParses(pattern: string)
    requires Tame(pattern) && Bracketed(pattern)
    ensures Parse(WildcardPatternToRegExp(pattern)) ==
      Some([Piece(Begin, false)] + Pieces(Complete(pattern)) + [Piece(End, false)])
  {
    var all := Complete(pattern);
    CompletedText(pattern);
    var text := Substitute(all, Translated) + "$";
    ParseEnd("$");
    ParseTranslated(all, "$", [Piece(End, false)]);
    assert ("^" + text)[1..] == text;
    Regroup([Piece(Begin, false)], Pieces(all), [Piece(End, false)]);
  }

  /** The completed pattern between anchors, if the pattern does not end in a backslash. */
  lemma {:induction false} CompletedText(pattern: string)
    requires !EndsWith(pattern, '\\')
    ensures WildcardPatternToRegExp(pattern) == "^" + (Substitute(Complete(pattern), Translated) + "$")
  {
    TranslationText(pattern);
    SubstituteSplit(pattern, "*");
    assert "*"[1..] == "" && Substitute("*", Translated) == WILDCARD;
    var body := Substitute(pattern, Translated);
    assert "^" + body + "" == "^" + body;
    Regroup("^", body, WILDCARD);
    Regroup("^", Substitute(Complete(pattern), Translated), "$");
  }

  lemma {:induction false} PiecesMatchGlob(pattern: string, s: string, i: nat)
    requires i <= |s|
    ensures MatchesAt(Pieces(pattern) + [Piece(End, false)], s, i) <==> Glob(pattern, s[i..])
    decreases |pattern|, |s| - i
  {
    var ps := Pieces(pattern) + [Piece(End, false)];
    if pattern == "" {
      assert ps == [Piece(End, false)] && ps[1..] == [];
    } else {
      assert ps[0] == PieceOf(pattern[0]);
      assert ps[1..] == Pieces(pattern[1..]) + [Piece(End, false)];
      if pattern[0] == '*' {
        PiecesMatchGlob(pattern[1..], s, i);
      }
      if i < |s| {
        assert s[i..][1..] == s[i + 1..];
        PiecesMatchGlob(if pattern[0] == '*' then pattern else pattern[1..], s, i + 1);
      }
    }
  }

  /** MatchWildcardPattern: None where the text does not compile within the part modelled. */
  ghost function MatchWildcardPattern(pattern: string, s: string): Option<bool> {
    match Parse(WildcardPatternToRegExp(pattern))
    case None => None
    case Some(ps) => Some(Search(ps, s))
  }

  /** For these patterns, the plain ones among them, MatchWildcardPattern reports no error and matches
      exactly what the wildcard pattern means. */
  lemma {:induction false} MatchIsGlob(pattern: string, s: string)
    requires Tame(pattern) && Bracketed(pattern)
    ensures MatchWildcardPattern(pattern, s) == Some(Glob(Complete(pattern), s))
  {
    TranslationParses(pattern);
    var inner := Pieces(Complete(pattern)) + [Piece(End, false)];
    var ps := [Piece(Begin, false)] + Pieces(Complete(pattern)) + [Piece(End, false)];
    assert ps[1..] == inner;
    PiecesMatchGlob(Complete(pattern), s, 0);
    assert s[0..] == s;
    assert MatchesAt(ps, s, 0) <==> MatchesAt(inner, s, 0);
  }
}
