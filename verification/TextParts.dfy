/** Splitting, joining and decimal numbers, as the header printer and its parser use them. */
module TextParts {
  import opened Common

  predicate Lacks(s: string, c: char) {
    forall i :: 0 <= i < |s| ==> s[i] != c
  }

  /** `sep.join(parts)` for a one-character separator. */
  function Join(parts: seq<string>, sep: char): string {
    if parts == [] then ""
    else if |parts| == 1 then parts[0]
    else parts[0] + [sep] + Join(parts[1..], sep)
  }

  /** `s.split(sep)`: the part being read is `head`. */
  function SplitFrom(head: string, s: string, sep: char): seq<string>
    decreases |s|
  {
    if s == "" then [head]
    else if s[0] == sep then [head] + SplitFrom("", s[1..], sep)
    else SplitFrom(head + [s[0]], s[1..], sep)
  }

  function Split(s: string, sep: char): seq<string> {
    SplitFrom("", s, sep)
  }

  lemma {:induction false} SplitPlain(head: string, s: string, sep: char)
    requires Lacks(s, sep)
    ensures SplitFrom(head, s, sep) == [head + s]
    decreases |s|
  {
    if s == "" {
      assert head + s == head;
    } else {
      SplitPlain(head + [s[0]], s[1..], sep);
      assert (head + [s[0]]) + s[1..] == head + s;
    }
  }

  lemma {:induction false} SplitAt(head: string, part: string, rest: string, sep: char)
    requires Lacks(part, sep)
    ensures SplitFrom(head, part + [sep] + rest, sep) == [head + part] + SplitFrom("", rest, sep)
    decreases |part|
  {
    var s := part + [sep] + rest;
    if part == "" {
      assert s[1..] == rest && head + part == head;
    } else {
      assert s[1..] == part[1..] + [sep] + rest;
      SplitAt(head + [part[0]], part[1..], rest, sep);
      assert (head + [part[0]]) + part[1..] == head + part;
    }
  }

  /** Splitting undoes joining when no part holds the separator. */
  lemma {:induction false} SplitJoin(parts: seq<string>, sep: char)
    requires parts != [] && forall p :: p in parts ==> Lacks(p, sep)
    ensures Split(Join(parts, sep), sep) == parts
  {
    if |parts| == 1 {
      SplitPlain("", parts[0], sep);
      assert "" + parts[0] == parts[0];
    } else {
      SplitJoin(parts[1..], sep);
      SplitAt("", parts[0], Join(parts[1..], sep), sep);
      assert "" + parts[0] == parts[0] && [parts[0]] + parts[1..] == parts;
    }
  }

  /** Joining undoes splitting, and no part holds the separator. */
  lemma {:induction false} JoinSplit(head: string, s: string, sep: char)
    requires Lacks(head, sep)
    ensures Join(SplitFrom(head, s, sep), sep) == head + s
    ensures SplitFrom(head, s, sep) != [] && forall p :: p in SplitFrom(head, s, sep) ==> Lacks(p, sep)
    decreases |s|
  {
    if s == "" {
      assert head + s == head;
    } else if s[0] == sep {
      JoinSplit("", s[1..], sep);
      var rest := SplitFrom("", s[1..], sep);
      assert ([head] + rest)[1..] == rest;
      assert "" + s[1..] == s[1..] && head + [sep] + s[1..] == head + s;
    } else {
      JoinSplit(head + [s[0]], s[1..], sep);
      assert (head + [s[0]]) + s[1..] == head + s;
    }
  }

  predicate IsDigit(c: char) { '0' <= c <= '9' }

  function DigitOf(n: nat): char
    requires n < 10
  {
    '0' + n as char
  }

  /** `str(n)` */
  function Decimal(n: nat): string {
    if n < 10 then [DigitOf(n)] else Decimal(n / 10) + [DigitOf(n % 10)]
  }

  /** `int(s)` on a string of digits. */
  function Value(s: string): nat
    requires forall i :: 0 <= i < |s| ==> IsDigit(s[i])
  {
    if s == "" then 0 else
      assert IsDigit(s[|s| - 1]);
      10 * Value(s[..|s| - 1]) + (s[|s| - 1] as int - '0' as int)
  }

  /** `0|[1-9][0-9]*` */
  predicate IsNumeral(s: string) {
    s != "" && (forall i :: 0 <= i < |s| ==> IsDigit(s[i])) && (s[0] == '0' ==> |s| == 1)
  }

  lemma {:induction false} DecimalValue(n: nat)
    ensures IsNumeral(Decimal(n)) && Value(Decimal(n)) == n
    ensures n > 0 ==> Decimal(n)[0] != '0'
  {
    var s := Decimal(n);
    if n < 10 {
      assert s[..0] == "";
      assert Value(s) == 10 * Value(s[..0]) + n;
    } else {
      DecimalValue(n / 10);
      assert s[..|s| - 1] == Decimal(n / 10);
      assert s[|s| - 1] as int - '0' as int == n % 10;
    }
  }

  lemma AppendDigit(v: nat, d: nat)
    requires v > 0 && d < 10
    ensures Decimal(10 * v + d) == Decimal(v) + [DigitOf(d)]
  {
    assert (10 * v + d) / 10 == v && (10 * v + d) % 10 == d;
  }

  lemma {:induction false} NumeralIsDecimal(s: string)
    requires IsNumeral(s)
    ensures Decimal(Value(s)) == s
    ensures s[0] != '0' ==> Value(s) > 0
  {
    var front, last := s[..|s| - 1], s[|s| - 1];
    var d := last as int - '0' as int;
    assert IsDigit(last) && DigitOf(d) == last;
    assert Value(s) == 10 * Value(front) + d;
    assert s == front + [last];
    if |s| > 1 {
      assert front[0] == s[0];
      NumeralIsDecimal(front);
      AppendDigit(Value(front), d);
    }
  }

  lemma {:induction false} DecimalLength(n: nat, digits: nat, bound: nat)
    requires digits > 0 && n < bound && bound == Power(digits)
    ensures |Decimal(n)| <= digits
    decreases digits
  {
    if n >= 10 {
      assert digits > 1;
      DecimalLength(n / 10, digits - 1, Power(digits - 1));
    }
  }

  function Power(n: nat): nat {
    if n == 0 then 1 else 10 * Power(n - 1)
  }
}
