/** The clue check of services/geminiService.ts: a clue may not be the secret
    word itself, and must be at least two characters long. */
module ClueValidation {
  import opened Types
  import opened Strings

  const SecretWordReason: string := "¡Has dicho la palabra secreta!"
  const TooShortReason: string := "Demasiado corta."

  datatype Verdict = Verdict(isValid: bool, reason: Option<string>)

  /** `s.toLowerCase().trim()`. */
  function Normalize(s: string): string
  {
    Trim(ToLower(s))
  }

  /** `length` of a JavaScript string: code points above U+FFFF take two
      UTF-16 code units. */
  function Utf16Length(s: string): (n: nat)
    ensures n >= |s|
  {
    if s == [] then 0 else (if s[0] as int > 0xFFFF then 2 else 1) + Utf16Length(s[1..])
  }

  /** `validateClue`. */
  function ValidateClue(clue: string, secretWord: string): (r: Verdict)
    ensures r.isValid <==> r.reason.None?
  {
    var normalizedClue := Normalize(clue);
    if normalizedClue == Normalize(secretWord) then Verdict(false, Some(SecretWordReason))
    else if Utf16Length(normalizedClue) < 2 then Verdict(false, Some(TooShortReason))
    else Verdict(true, None)
  }

  /** Saying the secret word, in any case and with any padding, is always
      refused as the secret word, even when it is also too short. */
  lemma SecretWordAlwaysCaught(secretWord: string, clue: string, w1: string, w2: string)
    requires ToLower(clue) == ToLower(secretWord)
    requires AllWhitespace(w1) && AllWhitespace(w2)
    ensures ValidateClue(w1 + clue + w2, secretWord) == Verdict(false, Some(SecretWordReason))
  {
    NormalizeIgnoresPadding(w1, clue, w2);
  }

  /** Surrounding whitespace never changes a normalised string. */
  lemma NormalizeIgnoresPadding(w1: string, s: string, w2: string)
    requires AllWhitespace(w1) && AllWhitespace(w2)
    ensures Normalize(w1 + s + w2) == Normalize(s)
  {
    ToLowerAppend(w1 + s, w2);
    ToLowerAppend(w1, s);
    ToLowerKeepsWhitespace(w1);
    ToLowerKeepsWhitespace(w2);
    TrimIgnoresPadding(w1, ToLower(s), w2);
  }

  /** Lower-casing first never changes a normalised string. */
  lemma NormalizeIgnoresCase(s: string)
    ensures Normalize(ToLower(s)) == Normalize(s)
  {
    ToLowerIdempotent(s);
  }

  /** The verdict does not depend on letter case or surrounding whitespace of
      either the clue or the secret word. */
  lemma VerdictIgnoresCaseAndPadding(clue: string, secretWord: string, w1: string, w2: string, w3: string, w4: string)
    requires AllWhitespace(w1) && AllWhitespace(w2) && AllWhitespace(w3) && AllWhitespace(w4)
    ensures ValidateClue(w1 + ToLower(clue) + w2, w3 + ToLower(secretWord) + w4) == ValidateClue(clue, secretWord)
  {
    NormalizeIgnoresPadding(w1, ToLower(clue), w2);
    NormalizeIgnoresPadding(w3, ToLower(secretWord), w4);
    NormalizeIgnoresCase(clue);
    NormalizeIgnoresCase(secretWord);
  }
}
