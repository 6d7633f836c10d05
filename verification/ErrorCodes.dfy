/** Redacted error codes: the part of a message before its first colon, as a short identifier. */
module ErrorCodes {
  import opened Common
  import opened TextParts
  import opened Whitespace

  predicate IsPlain(c: char) {
    'a' <= c <= 'z' || '0' <= c <= '9'
  }

  predicate IsOther(c: char) {
    !IsPlain(c)
  }

  predicate IsUnderscore(c: char) {
    c == '_'
  }

  predicate IsCodeChar(c: char) {
    IsPlain(c) || c == '_'
  }

  /** The pattern that a saved report's codes must match. */
  ghost predicate IsCode(code: string) {
    1 <= |code| <= 120 && AllCodeChars(code)
  }

  ghost predicate AllCodeChars(s: string) {
    forall i :: 0 <= i < |s| ==> IsCodeChar(s[i])
  }

  function BeforeColon(s: string): string {
    if s == "" || s[0] == ':' then "" else [s[0]] + BeforeColon(s[1..])
  }

  /** `_error_code`, for a given lower-casing of strings. */
  function ErrorCode(lower: string -> string, message: string): string {
    var prefix := lower(BeforeColon(message));
    var code := StripRight(IsUnderscore, StripLeft(IsUnderscore, Collapse(IsOther, '_', prefix)));
    var cut := if |code| > 120 then code[..120] else code;
    if cut == "" then "validation_error" else cut
  }

  // ---- stripping the underscores of a collapsed text strips all that is not plain ----

  lemma {:induction false} CollapsedChars(s: string)
    ensures AllCodeChars(Collapse(IsOther, '_', s))
    decreases |s|
  {
    if s != "" {
      CollapsedChars(if IsOther(s[0]) then StripLeft(IsOther, s[1..]) else s[1..]);
    }
  }

  lemma {:induction false} SameStripLeft(s: string)
    requires AllCodeChars(s)
    ensures StripLeft(IsUnderscore, s) == StripLeft(IsOther, s) && AllCodeChars(StripLeft(IsOther, s))
  {
    if s != "" {
      SameStripLeft(s[1..]);
    }
  }

  lemma {:induction false} SameStripRight(s: string)
    requires AllCodeChars(s)
    ensures StripRight(IsUnderscore, s) == StripRight(IsOther, s)
  {
    if s != "" {
      SameStripRight(s[..|s| - 1]);
    }
  }

  /** The code is made of the prefix's words. */
  lemma CodeIsWords(lower: string -> string, message: string)
    ensures var code := Join(Words(IsOther, lower(BeforeColon(message))), '_');
      ErrorCode(lower, message) ==
        if code == "" then "validation_error" else if |code| > 120 then code[..120] else code
  {
    var prefix := lower(BeforeColon(message));
    CollapsedChars(prefix);
    SameStripLeft(Collapse(IsOther, '_', prefix));
    SameStripRight(StripLeft(IsOther, Collapse(IsOther, '_', prefix)));
    NormaliseIsWords(IsOther, '_', prefix);
  }

  // ---- the shape of a code ----

  /** Starts with a letter or digit, and no two underscores stand next to each other. */
  ghost predicate Tidy(s: string) {
    && AllCodeChars(s) && (s != "" ==> IsPlain(s[0]))
    && forall i :: 0 <= i < |s| - 1 ==> !(s[i] == '_' && s[i + 1] == '_')
  }

  ghost predicate IsWord(w: string) {
    w != "" && forall i :: 0 <= i < |w| ==> IsPlain(w[i])
  }

  lemma {:induction false} WordsAreWords(s: string)
    ensures forall w :: w in Words(IsOther, s) ==> IsWord(w)
    decreases |s|
  {
    var t := StripLeft(IsOther, s);
    if t != "" {
      WordsAreWords(t[WordEnd(IsOther, t)..]);
    }
  }

  lemma {:induction false} JoinedIsTidy(words: seq<string>)
    requires forall w :: w in words ==> IsWord(w)
    ensures Tidy(Join(words, '_'))
  {
    if words != [] {
      assert IsWord(words[0]);
      JoinedIsTidy(words[1..]);
      if |words| > 1 {
        assert words[1] in words && IsWord(words[1]);
      }
    }
  }

  /** Whatever the message, its code is the words of its lower-cased prefix, one underscore apart and cut at
    * 120 characters: a nonempty identifier that starts with a letter or digit.
    */
  lemma ErrorCodeIsSafe(lower: string -> string, message: string)
    ensures var code := Join(Words(IsOther, lower(BeforeColon(message))), '_');
      ErrorCode(lower, message) ==
        if code == "" then "validation_error" else if |code| > 120 then code[..120] else code
    ensures IsCode(ErrorCode(lower, message)) && Tidy(ErrorCode(lower, message))
  {
    CodeIsWords(lower, message);
    WordsAreWords(lower(BeforeColon(message)));
    JoinedIsTidy(Words(IsOther, lower(BeforeColon(message))));
  }
}
