/** The translation as the source computes it, step by step. */
module Wildcards {
  import opened Options
  import opened WildcardSpec

  /** Every special character of the path, and nothing else, gets a backslash in front. */
  method EscapeSpecialCharsImpl(path0: string) returns (path: string)
    ensures path == EscapeSpecialChars(path0)
    ensures path == Substitute(path0, c => Escaped(|SPECIAL|, c))
  {
    path := path0;
    for i := 0 to |SPECIAL|
      invariant path == EscapeFirst(path0, i)
    {
      path := ReplaceAll(path, SPECIAL[i], ['\\', SPECIAL[i]]);
    }
    EscapeIsSubstitution(path0, |SPECIAL|);
  }

  method WildcardPatternToRegExpImpl(pattern: string) returns (localPath: string)
    ensures localPath == WildcardPatternToRegExp(pattern)
    ensures Tame(pattern) && Bracketed(pattern) ==>
      Parse(localPath) == Some([Piece(Begin, false)] + Pieces(Complete(pattern)) + [Piece(End, false)])
  {
    localPath := EscapeSpecialCharsImpl(pattern);
    localPath := ReplaceAll(localPath, '*', WILDCARD);
    if EndsWith(localPath, '/') || EndsWith(localPath, '\\') {
      localPath := localPath + WILDCARD;
    }
    localPath := "^" + localPath + "$";
    if Tame(pattern) && Bracketed(pattern) {
      TranslationParses(pattern);
    }
  }
}
