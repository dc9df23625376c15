/** `generateCaptcha`: a code of a given length over a 62-character alphabet. The
    random index `Math.floor(Math.random() * chars.length)` of each position is
    taken as a supplied draw. */
module CaptchaCode {

  const Upper: string := "ABCDEFGHIJKLMNOPQRSTUVWXYZ"
  const Lower: string := "abcdefghijklmnopqrstuvwxyz"
  const Digits: string := "0123456789"

  /** The `chars` string of `generateCaptcha`, in its order. */
  const Alphabet: string := Upper + Lower + Digits

  /** The three runs put together spell the source's literal. */
  lemma AlphabetIsSourceLiteral()
    ensures Alphabet == "ABCDEFGHIJKLMNOPQRSTUVWXYZabcdefghijklmnopqrstuvwxyz0123456789"
  {
  }

  /** The length the `get_captcha` button asks for. */
  const CaptchaLength: nat := 6

  predicate IsAlphanumeric(c: char)
  {
    'A' <= c <= 'Z' || 'a' <= c <= 'z' || '0' <= c <= '9'
  }

  /** A code the button can hand out: six alphanumeric characters. */
  predicate IsCaptchaCode(s: string)
  {
    |s| == CaptchaLength && forall i :: 0 <= i < |s| ==> IsAlphanumeric(s[i])
  }

  /** JavaScript's `charAt`: the one-character string at `i`, or "" when `i` is out of range. */
  function CharAt(s: string, i: int): string
  {
    if 0 <= i < |s| then [s[i]] else ""
  }

  /** Indices `Math.floor(Math.random() * 62)` can produce: `Math.random()` is below 1. */
  predicate ValidDraws(draws: seq<int>)
  {
    forall i :: 0 <= i < |draws| ==> 0 <= draws[i] < |Alphabet|
  }

  /** The alphabet is the upper-case letters, the lower-case letters, then the digits,
      each run in code-point order. */
  lemma AlphabetLayout()
    ensures |Alphabet| == 62
    ensures forall k :: 0 <= k < 26 ==> Alphabet[k] as int == 'A' as int + k
    ensures forall k :: 26 <= k < 52 ==> Alphabet[k] as int == 'a' as int + (k - 26)
    ensures forall k :: 52 <= k < 62 ==> Alphabet[k] as int == '0' as int + (k - 52)
  {
  }

  /** Every character of the alphabet is alphanumeric, and no two positions hold the same one. */
  lemma AlphabetIsAlphanumericAndDistinct()
    ensures forall k :: 0 <= k < |Alphabet| ==> IsAlphanumeric(Alphabet[k])
    ensures forall k, l :: 0 <= k < |Alphabet| && 0 <= l < |Alphabet| && Alphabet[k] == Alphabet[l] ==> k == l
  {
    AlphabetLayout();
  }

  /** The code `generateCaptcha` builds from the draws: one `charAt` per draw, appended in order. */
  function CodeOf(draws: seq<int>): (code: string)
    requires ValidDraws(draws)
    ensures |code| == |draws|
    ensures forall i :: 0 <= i < |draws| ==> code[i] == Alphabet[draws[i]]
    decreases |draws|
  {
    if draws == [] then ""
    else CodeOf(draws[..|draws| - 1]) + CharAt(Alphabet, draws[|draws| - 1])
  }

  /** The loop of `generateCaptcha`. */
  method GenerateCaptcha(length: nat, draws: seq<int>) returns (captcha: string)
    requires |draws| == length && ValidDraws(draws)
    ensures captcha == CodeOf(draws)
    ensures |captcha| == length
    ensures forall i :: 0 <= i < |captcha| ==> IsAlphanumeric(captcha[i])
  {
    AlphabetIsAlphanumericAndDistinct();
    captcha := "";
    var i := 0;
    while i < length
      invariant 0 <= i <= length
      invariant captcha == CodeOf(draws[..i])
    {
      assert draws[..i + 1][..i] == draws[..i];
      captcha := captcha + CharAt(Alphabet, draws[i]);
      i := i + 1;
    }
    assert draws[..length] == draws;
  }

  /** The draw that produces `c`: its position in the alphabet. */
  function DrawOf(c: char): (k: int)
    requires IsAlphanumeric(c)
    ensures 0 <= k < |Alphabet| && Alphabet[k] == c
  {
    AlphabetLayout();
    if 'A' <= c <= 'Z' then c as int - 'A' as int
    else if 'a' <= c <= 'z' then 26 + (c as int - 'a' as int)
    else 52 + (c as int - '0' as int)
  }

  /** The draws that produce an alphanumeric string. */
  function DrawsOf(code: string): (draws: seq<int>)
    requires forall i :: 0 <= i < |code| ==> IsAlphanumeric(code[i])
    ensures ValidDraws(draws) && CodeOf(draws) == code
  {
    seq(|code|, i requires 0 <= i < |code| => DrawOf(code[i]))
  }

  /** Every alphanumeric code of the right length can be handed out, and each
      sequence of draws yields a different code: generation is a bijection between
      draw sequences and alphanumeric strings of the same length. */
  lemma GenerationIsBijective(draws: seq<int>, other: seq<int>, code: string)
    requires ValidDraws(draws) && ValidDraws(other)
    requires forall i :: 0 <= i < |code| ==> IsAlphanumeric(code[i])
    ensures forall i :: 0 <= i < |draws| ==> IsAlphanumeric(CodeOf(draws)[i])
    ensures CodeOf(draws) == CodeOf(other) ==> draws == other
    ensures exists d :: ValidDraws(d) && |d| == |code| && CodeOf(d) == code
  {
    AlphabetIsAlphanumericAndDistinct();
    if CodeOf(draws) == CodeOf(other) {
      forall i | 0 <= i < |draws| ensures draws[i] == other[i] {
        assert CodeOf(draws)[i] == CodeOf(other)[i];
      }
    }
    var d := DrawsOf(code);
    assert ValidDraws(d) && |d| == |code| && CodeOf(d) == code;
  }
}
