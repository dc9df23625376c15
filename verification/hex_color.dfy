/** The colour check of `setcaptchaembed`: the regular expression
    `^#([0-9A-F]{3}){1,2}$` with the case-insensitive flag. */
module HexColor {

  /** `[0-9A-F]` under the `i` flag. Without the `u` flag JavaScript folds case by
      upper-casing and never folds a non-ASCII character onto an ASCII one, so
      exactly the ASCII digits and the letters a-f, A-F match. */
  predicate IsHexDigit(c: char)
  {
    '0' <= c <= '9' || 'A' <= c <= 'F' || 'a' <= c <= 'f'
  }

  /** `t` is matched, in full, by `([0-9A-F]{3}){atLeast,atMost}`. */
  predicate HexGroups(t: string, atLeast: int, atMost: nat)
    decreases atMost
  {
    || (atLeast <= 0 && t == [])
    || (&& atMost > 0
        && |t| >= 3
        && IsHexDigit(t[0]) && IsHexDigit(t[1]) && IsHexDigit(t[2])
        && HexGroups(t[3..], atLeast - 1, atMost - 1))
  }

  /** The regular expression as written, anchored at both ends. */
  predicate MatchesColorPattern(s: string)
  {
    |s| >= 1 && s[0] == '#' && HexGroups(s[1..], 1, 2)
  }

  /** Every character of `t` is a hex digit. */
  predicate AllHex(t: string)
  {
    forall i :: 0 <= i < |t| ==> IsHexDigit(t[i])
  }

  /** The shape the expression describes: `#` and then exactly 3 or 6 hex digits. */
  predicate IsColorShaped(s: string)
  {
    (|s| == 4 || |s| == 7) && s[0] == '#' && AllHex(s[1..])
  }

  /** One or two groups of three hex digits are exactly 3 or 6 hex digits. */
  lemma HexGroupsShape(t: string)
    ensures HexGroups(t, 1, 2) <==> (|t| == 3 || |t| == 6) && AllHex(t)
  {
  }

  /** The regular expression accepts a string iff it is `#` followed by 3 or 6 hex digits. */
  lemma ColorPatternShape(s: string)
    ensures MatchesColorPattern(s) <==> IsColorShaped(s)
  {
  }

  /** `.test(color)`: a single left-to-right scan that agrees with the expression. */
  method TestColor(s: string) returns (ok: bool)
    ensures ok <==> MatchesColorPattern(s)
  {
    ColorPatternShape(s);
    if !(|s| == 4 || |s| == 7) || s[0] != '#' {
      return false;
    }
    var i := 1;
    while i < |s|
      invariant 1 <= i <= |s|
      invariant forall j :: 1 <= j < i ==> IsHexDigit(s[j])
    {
      if !IsHexDigit(s[i]) {
        return false;
      }
      i := i + 1;
    }
    return true;
  }
}
