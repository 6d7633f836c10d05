/** `re.sub(r"\s+", " ", text).strip()` and its like, and what they mean word by word. */
module Whitespace {
  import opened TextParts

  /** The characters that Python's `\s` and `str.strip` treat as white space. */
  predicate IsSpace(c: char) {
    var n := c as int;
    9 <= n <= 13 || 28 <= n <= 32 || n == 0x85 || n == 0xA0 || n == 0x1680 || 0x2000 <= n <= 0x200A
    || n == 0x2028 || n == 0x2029 || n == 0x202F || n == 0x205F || n == 0x3000
  }

  function StripLeft(space: char -> bool, s: string): (r: string)
    ensures |r| <= |s| && (r != "" ==> !space(r[0]))
  {
    if s != "" && space(s[0]) then StripLeft(space, s[1..]) else s
  }

  function StripRight(space: char -> bool, s: string): (r: string)
    ensures |r| <= |s| && r == s[..|r|] && (r != "" ==> !space(r[|r| - 1]))
  {
    if s != "" && space(s[|s| - 1]) then
      var r := StripRight(space, s[..|s| - 1]);
      assert s[..|s| - 1][..|r|] == s[..|r|];
      r
    else s
  }

  /** Replaces every run of white space by one fill character. */
  function Collapse(space: char -> bool, fill: char, s: string): string
    decreases |s|
  {
    if s == "" then ""
    else if space(s[0]) then [fill] + Collapse(space, fill, StripLeft(space, s[1..]))
    else [s[0]] + Collapse(space, fill, s[1..])
  }

  function Normalise(space: char -> bool, fill: char, s: string): string {
    StripRight(space, StripLeft(space, Collapse(space, fill, s)))
  }

  /** The maximal runs of other characters. */
  function WordEnd(space: char -> bool, s: string): (n: nat)
    ensures n <= |s| && (forall i :: 0 <= i < n ==> !space(s[i])) && (n < |s| ==> space(s[n]))
  {
    if s == "" || space(s[0]) then 0 else 1 + WordEnd(space, s[1..])
  }

  function Words(space: char -> bool, s: string): seq<string>
    decreases |s|
  {
    var t := StripLeft(space, s);
    if t == "" then []
    else
      assert WordEnd(space, t) > 0;
      [t[..WordEnd(space, t)]] + Words(space, t[WordEnd(space, t)..])
  }

  lemma {:induction false} StripLeftTwice(space: char -> bool, s: string)
    ensures StripLeft(space, StripLeft(space, s)) == StripLeft(space, s)
  {
  }

  /** Characters before the first white space are kept as they are. */
  lemma {:induction false} CollapseWord(space: char -> bool, fill: char, word: string, rest: string)
    requires forall i :: 0 <= i < |word| ==> !space(word[i])
    ensures Collapse(space, fill, word + rest) == word + Collapse(space, fill, rest)
    decreases |word|
  {
    if word == "" {
      assert word + rest == rest;
    } else {
      var s := word + rest;
      assert s[0] == word[0] && s[1..] == word[1..] + rest;
      CollapseWord(space, fill, word[1..], rest);
      assert word == [word[0]] + word[1..];
    }
  }

  lemma {:induction false} StripRightPrefix(space: char -> bool, a: string, b: string)
    requires StripRight(space, b) != ""
    ensures StripRight(space, a + b) == a + StripRight(space, b)
    decreases |b|
  {
    if b != "" && space(b[|b| - 1]) {
      assert (a + b)[..|a + b| - 1] == a + b[..|b| - 1];
      StripRightPrefix(space, a, b[..|b| - 1]);
    }
  }

  /** The last word, with or without white space after it. */
  lemma StripAfterWord(space: char -> bool, fill: char, word: string)
    requires space(fill) && word != "" && !space(word[|word| - 1])
    ensures StripRight(space, word) == word && StripRight(space, word + [fill]) == word
  {
    assert (word + [fill])[..|word| + 1 - 1] == word;
  }

  lemma WordsSplit(space: char -> bool, t: string, word: string, rest: string)
    requires t != "" && t == StripLeft(space, t) && word == t[..WordEnd(space, t)] && rest == t[WordEnd(space, t)..]
    ensures word != "" && t == word + rest && (forall i :: 0 <= i < |word| ==> !space(word[i]))
    ensures Words(space, t) == [word] + Words(space, rest)
    ensures rest != "" ==> space(rest[0])
  {
  }

  /** Stripping the collapsed rest of a text leaves its words, one fill character apart. */
  lemma {:induction false} StrippedWords(space: char -> bool, fill: char, t: string)
    requires space(fill) && t == StripLeft(space, t)
    ensures StripRight(space, Collapse(space, fill, t)) == Join(Words(space, t), fill)
    decreases |t|
  {
    if t != "" {
      var word, rest := t[..WordEnd(space, t)], t[WordEnd(space, t)..];
      WordsSplit(space, t, word, rest);
      CollapseWord(space, fill, word, rest);
      StripAfterWord(space, fill, word);
      if rest == "" {
        assert word + "" == word;
      } else {
        var next := StripLeft(space, rest[1..]);
        StripLeftTwice(space, rest[1..]);
        StrippedWords(space, fill, next);
        assert Collapse(space, fill, rest) == [fill] + Collapse(space, fill, next);
        if next == "" {
          assert word + ([fill] + "") == word + [fill];
        } else {
          StrippedHead(space, fill, next);
          StripAcross(space, fill, word, Collapse(space, fill, next));
          JoinCons(fill, word, Words(space, next));
        }
      }
    }
  }

  lemma StrippedHead(space: char -> bool, fill: char, next: string)
    requires next == StripLeft(space, next) && next != ""
    ensures Collapse(space, fill, next) != "" && !space(Collapse(space, fill, next)[0]) && Words(space, next) != []
  {
    assert !space(next[0]);
  }

  lemma JoinCons(fill: char, word: string, rest: seq<string>)
    requires rest != []
    ensures Join([word] + rest, fill) == word + [fill] + Join(rest, fill)
  {
    assert ([word] + rest)[1..] == rest;
  }

  /** A word and a fill character before a text that does not strip away. */
  lemma StripAcross(space: char -> bool, fill: char, word: string, c: string)
    requires c != "" && !space(c[0])
    ensures StripRight(space, word + ([fill] + c)) == word + [fill] + StripRight(space, c)
  {
    assert word + ([fill] + c) == (word + [fill]) + c;
    StripRightNonEmpty(space, c);
    StripRightPrefix(space, word + [fill], c);
  }

  lemma {:induction false} StripRightNonEmpty(space: char -> bool, s: string)
    requires s != "" && !space(s[0])
    ensures StripRight(space, s) != ""
  {
    if space(s[|s| - 1]) {
      StripRightNonEmpty(space, s[..|s| - 1]);
    }
  }

  lemma StripLeftCollapse(space: char -> bool, fill: char, s: string)
    requires space(fill)
    ensures StripLeft(space, Collapse(space, fill, s)) == Collapse(space, fill, StripLeft(space, s))
  {
    if s != "" && space(s[0]) {
      var rest := StripLeft(space, s[1..]);
      assert ([fill] + Collapse(space, fill, rest))[1..] == Collapse(space, fill, rest);
      assert rest == "" || Collapse(space, fill, rest)[0] == rest[0];
    }
  }

  /** Normalising a text leaves exactly its words, separated by single fill characters. */
  lemma NormaliseIsWords(space: char -> bool, fill: char, s: string)
    requires space(fill)
    ensures Normalise(space, fill, s) == Join(Words(space, s), fill)
  {
    StripLeftCollapse(space, fill, s);
    StripLeftTwice(space, s);
    StrippedWords(space, fill, StripLeft(space, s));
    assert Words(space, StripLeft(space, s)) == Words(space, s);
  }
}
