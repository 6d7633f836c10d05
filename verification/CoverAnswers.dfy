/** What the cover parser looks at: names, attributes, and the three flags over a whole document. */
module CoverAnswers {
  import opened Common
  import opened TextParts
  import opened Whitespace
  import opened CoverFacts

  /** Folding changes the letters A to Z, each to the letter 32 code points on, and nothing else. */
  lemma LowerMeaning(s: string, i: nat)
    requires i < |s|
    ensures |Lower(s)| == |s|
    ensures Lower(s)[i] as int == s[i] as int + (if 65 <= s[i] as int <= 90 then 32 else 0)
    ensures Lower(Lower(s)) == Lower(s)
  {
    assert forall j :: 0 <= j < |s| ==> LowerChar(LowerChar(s[j])) == LowerChar(s[j]);
  }

  /** The attribute at `k` is the last one of this name. */
  predicate IsLast(attrs: seq<(string, Option<string>)>, name: string, k: nat) {
    && k < |attrs| && Lower(attrs[k].0) == name
    && forall j :: k < j < |attrs| ==> Lower(attrs[j].0) != name
  }

  /** An attribute is the value of the last one of its name; a missing one and one without a value read as empty. */
  lemma {:induction false} AttributeMeaning(attrs: seq<(string, Option<string>)>, name: string)
    ensures (forall k | 0 <= k < |attrs| :: Lower(attrs[k].0) != name) ==> Attribute(attrs, name) == ""
    ensures forall k: nat | IsLast(attrs, name, k) ::
      Attribute(attrs, name) == match attrs[k].1 case Some(value) => value case None => ""
  {
    if attrs != [] && Lower(attrs[|attrs| - 1].0) != name {
      var front := attrs[..|attrs| - 1];
      AttributeMeaning(front, name);
      forall k: nat | IsLast(attrs, name, k) ensures IsLast(front, name, k) {
      }
    }
  }

  /** An element reports its fact exactly when its folded name is one of the two and its text has a word. */
  lemma FactMeaning(attrs: seq<(string, Option<string>)>, texts: seq<string>, k: nat, symbol: string, exchange: string)
    requires symbol == "dei:tradingsymbol" && exchange == "dei:securityexchangename"
    requires IsLast(attrs, "name", k) && attrs[k].1.Some?
    ensures var name, words := Lower(attrs[k].1.value), Words(IsSpace, Concat(texts));
      FactOf(attrs, texts) ==
        if (name == symbol || name == exchange) && Join(words, ' ') != ""
        then [Fact(name, Attribute(attrs, "contextref"), Join(words, ' '))] else []
  {
    AttributeMeaning(attrs, "name");
  }

  /** Some start tag of the document has this folded name. */
  ghost predicate Starts(events: seq<Event>, name: string) {
    exists i :: 0 <= i < |events| && events[i].StartTag? && Lower(events[i].tag) == name
  }

  /** Some inline element of the document carries this folded fact name. */
  ghost predicate Carries(events: seq<Event>, element: string, name: string) {
    exists i :: 0 <= i < |events| && events[i].StartTag? && Lower(events[i].tag) == element
      && Lower(Attribute(events[i].attrs, "name")) == name
  }

  lemma StartsCons(e: Event, rest: seq<Event>, name: string)
    ensures Starts([e] + rest, name) <==> (e.StartTag? && Lower(e.tag) == name) || Starts(rest, name)
  {
    var all := [e] + rest;
    if i :| 0 <= i < |rest| && rest[i].StartTag? && Lower(rest[i].tag) == name {
      assert all[i + 1] == rest[i];
    }
    if e.StartTag? && Lower(e.tag) == name {
      assert all[0] == e;
    }
    if i :| 0 <= i < |all| && all[i].StartTag? && Lower(all[i].tag) == name {
      assert i > 0 ==> rest[i - 1] == all[i];
    }
  }

  lemma CarriesCons(e: Event, rest: seq<Event>, element: string, name: string)
    ensures Carries([e] + rest, element, name) <==>
      || (e.StartTag? && Lower(e.tag) == element && Lower(Attribute(e.attrs, "name")) == name)
      || Carries(rest, element, name)
  {
    var all := [e] + rest;
    if i :| 0 <= i < |rest| && rest[i].StartTag? && Lower(rest[i].tag) == element
            && Lower(Attribute(rest[i].attrs, "name")) == name {
      assert all[i + 1] == rest[i];
    }
    if e.StartTag? && Lower(e.tag) == element && Lower(Attribute(e.attrs, "name")) == name {
      assert all[0] == e;
    }
    if i :| 0 <= i < |all| && all[i].StartTag? && Lower(all[i].tag) == element
            && Lower(Attribute(all[i].attrs, "name")) == name {
      assert i > 0 ==> rest[i - 1] == all[i];
    }
  }

  lemma {:induction false} FlagsFrom(p: Parser, events: seq<Event>)
    ensures var q := RunAll(p, events);
      && (q.inlineTag <==> p.inlineTag || Starts(events, ELEMENT))
      && (q.symbolTag <==> p.symbolTag || Starts(events, SYMBOL))
      && (q.noSymbolFlag <==> p.noSymbolFlag || Starts(events, NO_SYMBOL) || Carries(events, ELEMENT, NO_SYMBOL))
    decreases |events|
  {
    if events != [] {
      var e, rest := events[0], events[1..];
      assert [e] + rest == events;
      FlagsFrom(Step(p, e), rest);
      StartsCons(e, rest, ELEMENT);
      StartsCons(e, rest, SYMBOL);
      StartsCons(e, rest, NO_SYMBOL);
      CarriesCons(e, rest, ELEMENT, NO_SYMBOL);
    }
  }

  /** After any document, balanced or not, each flag says exactly that its tag, or for the last one a fact of its
    * name, was there.
    */
  lemma FlagsMeaning(events: seq<Event>)
    ensures var p := RunAll(FRESH, events);
      && (p.inlineTag <==> Starts(events, "ix:nonnumeric"))
      && (p.symbolTag <==> Starts(events, "dei:tradingsymbol"))
      && (p.noSymbolFlag <==>
            || Starts(events, "dei:notradingsymbolflag")
            || Carries(events, "ix:nonnumeric", "dei:notradingsymbolflag"))
  {
    FlagsFrom(FRESH, events);
  }
}
