/** The Version class: each method against the specification in VersionSpec. */
module VersionClass {
  import opened VersionSpec

  /** The digits at the front of the token, "0" if there are none, and the rest. */
  method SplitNumberAndSuffix(token: string) returns (number: string, suffix: string)
    ensures AllDigits(number) && number != ""
    ensures token != "" && IsDigit(token[0]) ==> number + suffix == token && (suffix != "" ==> !IsDigit(suffix[0]))
    ensures token == "" || !IsDigit(token[0]) ==> number == "0" && suffix == token
    ensures Atoi(number) == Number(token) && (suffix != "" <==> Suffixed(token))
  {
    var numeric := "";
    var i := 0;
    while i < |token|
      invariant 0 <= i <= |token| && numeric == token[..i] && AllDigits(numeric)
      invariant DigitCount(token) == i + DigitCount(token[i..])
    {
      if !IsDigit(token[i]) {
        break;
      }
      assert token[i..][1..] == token[i + 1..];
      numeric := numeric + [token[i]];
      i := i + 1;
    }
    assert DigitCount(token) == i;
    if |numeric| == 0 {
      assert Decimal("0") == 0;
      return "0", token;
    }
    return numeric, token[i..];
  }

  method CompareTokensImpl(ver1Token: string, ver2Token: string) returns (r: int)
    ensures r == CompareTokens(ver1Token, ver2Token)
  {
    if ver1Token == ver2Token {
      return 0;
    }
    var ver1Number, ver1Suffix := SplitNumberAndSuffix(ver1Token);
    var ver2Number, ver2Suffix := SplitNumberAndSuffix(ver2Token);
    var ver1TokenInt, ver2TokenInt := Atoi(ver1Number), Atoi(ver2Number);
    if ver1TokenInt > ver2TokenInt {
      return 1;
    } else if ver1TokenInt < ver2TokenInt {
      return -1;
    } else if |ver1Suffix| == 0 {
      return -1;
    } else if |ver2Suffix| == 0 {
      return 1;
    } else {
      return Lex(ver1Token, ver2Token);
    }
  }

  class Version {
    var version: string

    constructor (version: string)
      ensures this.version == version
    {
      this.version := version;
    }

    method SetVersion(version: string)
      modifies this
      ensures this.version == version
    {
      this.version := version;
    }

    method Compare(ver1: string) returns (r: int)
      ensures r == VersionSpec.Compare(ver1, version)
    {
      if ver1 == version {
        return 0;
      } else if ver1 == DEVELOPMENT {
        return 1;
      } else if version == DEVELOPMENT {
        return -1;
      }
      var ver1Tokens, ver2Tokens := Split(ver1), Split(version);
      var maxIndex := |ver1Tokens|;
      if |ver2Tokens| > maxIndex {
        maxIndex := |ver2Tokens|;
      }
      for tokenIndex := 0 to maxIndex
        invariant CompareFrom(ver1Tokens, ver2Tokens, 0) == CompareFrom(ver1Tokens, ver2Tokens, tokenIndex)
      {
        var ver1Token := "0";
        if |ver1Tokens| >= tokenIndex + 1 {
          ver1Token := Trim(ver1Tokens[tokenIndex]);
        }
        var ver2Token := "0";
        if |ver2Tokens| >= tokenIndex + 1 {
          ver2Token := Trim(ver2Tokens[tokenIndex]);
        }
        var compare := CompareTokensImpl(ver1Token, ver2Token);
        if compare != 0 {
          return compare;
        }
      }
      return 0;
    }

    method AtLeast(minVersion: string) returns (r: bool)
      ensures r == VersionSpec.AtLeast(version, minVersion)
    {
      var c := Compare(minVersion);
      return c <= 0;
    }
  }
}
