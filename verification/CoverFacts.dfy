/** The inline-XBRL cover parser: a depth counter and a stack against tree semantics. */
module CoverFacts {
  import opened Common
  import opened TextParts
  import opened Sorting
  import opened Whitespace

  /** Tokens in the order the HTML tokenizer delivers them. Tag and attribute names compared
    * here are ASCII, so case is folded on ASCII letters.
    */
  datatype Event =
    | StartTag(tag: string, attrs: seq<(string, Option<string>)>)
    | Data(text: string)
    | EndTag(tag: string)

  /** One tracked element that is still open. */
  datatype Open = Open(depth: nat, name: string, context: string, parts: seq<string>)

  datatype Fact = Fact(name: string, context: string, value: string)

  datatype Parser = Parser(depth: nat, active: seq<Open>, facts: seq<Fact>,
                           inlineTag: bool, symbolTag: bool, noSymbolFlag: bool)

  const FRESH: Parser := Parser(0, [], [], false, false, false)

  const ELEMENT: string := "ix:nonnumeric"
  const SYMBOL: string := "dei:tradingsymbol"
  const EXCHANGE: string := "dei:securityexchangename"
  const NO_SYMBOL: string := "dei:notradingsymbolflag"

  function LowerChar(c: char): char {
    if 'A' <= c <= 'Z' then 'a' + (c as int - 'A' as int) as char else c
  }

  function Lower(s: string): string {
    seq(|s|, i requires 0 <= i < |s| => LowerChar(s[i]))
  }

  /** `{key.lower(): value or "" ...}.get(name, "")`: the last duplicate wins. */
  function Attribute(attrs: seq<(string, Option<string>)>, name: string): string {
    if attrs == [] then ""
    else
      var last := attrs[|attrs| - 1];
      if Lower(last.0) == name then (if last.1.Some? then last.1.value else "")
        else Attribute(attrs[..|attrs| - 1], name)
  }

  function NameOf(attrs: seq<(string, Option<string>)>): string {
    Lower(Attribute(attrs, "name"))
  }

  predicate Tracked(name: string) {
    name == SYMBOL || name == EXCHANGE
  }

  function Concat(parts: seq<string>): string {
    if parts == [] then "" else parts[0] + Concat(parts[1..])
  }

  function Feed(active: seq<Open>, texts: seq<string>): seq<Open> {
    seq(|active|, i requires 0 <= i < |active| => active[i].(parts := active[i].parts + texts))
  }

  function OnStart(p: Parser, tag: string, attrs: seq<(string, Option<string>)>): Parser {
    var name := Lower(tag);
    var p1 := p.(symbolTag := p.symbolTag || name == SYMBOL, noSymbolFlag := p.noSymbolFlag || name == NO_SYMBOL);
    if name != ELEMENT then p1
    else
      var fact := NameOf(attrs);
      p1.(inlineTag := true, depth := p.depth + 1, noSymbolFlag := p1.noSymbolFlag || fact == NO_SYMBOL,
          active := if !Tracked(fact) then p.active
                    else p.active + [Open(p.depth + 1, fact, Attribute(attrs, "contextref"), [])])
  }

  /** The fact a closing element reports, if its text is not blank. */
  function Closed(o: Open): seq<Fact> {
    var value := Normalise(IsSpace, ' ', Concat(o.parts));
    if value != "" then [Fact(o.name, o.context, value)] else []
  }

  function OnEnd(p: Parser, tag: string): Parser {
    if Lower(tag) != ELEMENT then p
    else
      var depth := if p.depth > 0 then p.depth - 1 else 0;
      if p.active != [] && p.active[|p.active| - 1].depth == p.depth then
        p.(active := p.active[..|p.active| - 1], facts := p.facts + Closed(p.active[|p.active| - 1]), depth := depth)
      else p.(depth := depth)
  }

  function Step(p: Parser, e: Event): Parser {
    match e
    case StartTag(tag, attrs) => OnStart(p, tag, attrs)
    case Data(text) => p.(active := Feed(p.active, [text]))
    case EndTag(tag) => OnEnd(p, tag)
  }

  function RunAll(p: Parser, events: seq<Event>): Parser
    decreases |events|
  {
    if events == [] then p else RunAll(Step(p, events[0]), events[1..])
  }

  // ---- on any stream at all ----

  /** Open elements sit at strictly increasing depths, none deeper than the counter. */
  predicate Stacked(p: Parser) {
    && (forall i :: 0 <= i < |p.active| ==> 1 <= p.active[i].depth <= p.depth && Tracked(p.active[i].name))
    && (forall i, j :: 0 <= i < j < |p.active| ==> p.active[i].depth < p.active[j].depth)
  }

  lemma StartStaysStacked(p: Parser, tag: string, attrs: seq<(string, Option<string>)>)
    requires Stacked(p)
    ensures Stacked(OnStart(p, tag, attrs)) && OnStart(p, tag, attrs).facts == p.facts
  {
    if Lower(tag) == ELEMENT {
      var fact := NameOf(attrs);
    }
  }

  lemma EndStaysStacked(p: Parser, tag: string)
    requires Stacked(p)
    ensures Stacked(OnEnd(p, tag)) && p.facts <= OnEnd(p, tag).facts
  {
    if p.active != [] {
      var n := |p.active| - 1;
      assert forall i :: 0 <= i < n ==> p.active[i].depth < p.active[n].depth;
    }
  }

  /** Whatever the tokenizer delivers, unbalanced tags included, the stack stays in order and
    * recorded facts are never changed.
    */
  lemma {:induction false} AnyStreamStaysStacked(p: Parser, events: seq<Event>)
    requires Stacked(p)
    ensures Stacked(RunAll(p, events)) && p.facts <= RunAll(p, events).facts
    decreases |events|
  {
    if events != [] {
      match events[0] {
        case StartTag(tag, attrs) => StartStaysStacked(p, tag, attrs);
        case Data(_) =>
        case EndTag(tag) => EndStaysStacked(p, tag);
      }
      AnyStreamStaysStacked(Step(p, events[0]), events[1..]);
    }
  }

  // ---- on well-nested documents ----

  /** A document as a forest. Tokens that are not about the inline element never touch the
    * depth, so they need not be balanced and appear as noise.
    */
  datatype Node =
    | Text(text: string)
    | Noise(event: Event)
    | Element(attrs: seq<(string, Option<string>)>, children: seq<Node>)

  predicate IsNoise(e: Event) {
    !e.Data? && Lower(e.tag) != ELEMENT
  }

  predicate WellFormed(nodes: seq<Node>)
    decreases nodes
  {
    nodes == [] || (WellFormedNode(nodes[0]) && WellFormed(nodes[1..]))
  }

  predicate WellFormedNode(node: Node)
    decreases node
  {
    match node
    case Text(_) => true
    case Noise(e) => IsNoise(e)
    case Element(_, children) => WellFormed(children)
  }

  /** The token stream of a forest. */
  function Events(nodes: seq<Node>): seq<Event>
    decreases nodes
  {
    if nodes == [] then [] else EventsOf(nodes[0]) + Events(nodes[1..])
  }

  function EventsOf(node: Node): seq<Event>
    decreases node
  {
    match node
    case Text(t) => [Data(t)]
    case Noise(e) => [e]
    case Element(attrs, children) => [StartTag(ELEMENT, attrs)] + Events(children) + [EndTag(ELEMENT)]
  }

  /** The descendant texts of a forest, in document order. */
  function Texts(nodes: seq<Node>): seq<string>
    decreases nodes
  {
    if nodes == [] then [] else TextsOf(nodes[0]) + Texts(nodes[1..])
  }

  function TextsOf(node: Node): seq<string>
    decreases node
  {
    match node
    case Text(t) => [t]
    case Noise(_) => []
    case Element(_, children) => Texts(children)
  }

  /** The facts of a forest in post-order: (name, context, words of the descendant text). */
  function Facts(nodes: seq<Node>): seq<Fact>
    decreases nodes
  {
    if nodes == [] then [] else FactsOf(nodes[0]) + Facts(nodes[1..])
  }

  function FactsOf(node: Node): seq<Fact>
    decreases node
  {
    match node
    case Text(_) => []
    case Noise(_) => []
    case Element(attrs, children) => Facts(children) + FactOf(attrs, Texts(children))
  }

  /** What one element with these descendant texts reports. */
  function FactOf(attrs: seq<(string, Option<string>)>, texts: seq<string>): seq<Fact> {
    var value := Join(Words(IsSpace, Concat(texts)), ' ');
    if Tracked(NameOf(attrs)) && value != "" then [Fact(NameOf(attrs), Attribute(attrs, "contextref"), value)] else []
  }

  lemma {:induction false} RunAppend(p: Parser, a: seq<Event>, b: seq<Event>)
    ensures RunAll(p, a + b) == RunAll(RunAll(p, a), b)
    decreases |a|
  {
    if a == [] {
      assert a + b == b;
    } else {
      assert (a + b)[1..] == a[1..] + b;
      RunAppend(Step(p, a[0]), a[1..], b);
    }
  }

  lemma FeedTwice(active: seq<Open>, a: seq<string>, b: seq<string>)
    ensures Feed(Feed(active, a), b) == Feed(active, a + b)
    ensures Feed(active, []) == active
  {
    assert forall i :: 0 <= i < |active| ==> active[i].parts + [] == active[i].parts;
    assert forall i :: 0 <= i < |active| ==> (active[i].parts + a) + b == active[i].parts + (a + b);
  }

  lemma LowerElement()
    ensures Lower(ELEMENT) == ELEMENT
  {
    assert forall i :: 0 <= i < |ELEMENT| ==> LowerChar(ELEMENT[i]) == ELEMENT[i];
  }

  /** The parser moved by these texts and facts, at the same depth. */
  predicate Moved(p: Parser, p': Parser, texts: seq<string>, facts: seq<Fact>) {
    p'.depth == p.depth && p'.active == Feed(p.active, texts) && p'.facts == p.facts + facts
  }

  lemma MovedTwice(p: Parser, p1: Parser, p2: Parser, a: seq<string>, b: seq<string>, f: seq<Fact>, g: seq<Fact>)
    requires Moved(p, p1, a, f) && Moved(p1, p2, b, g)
    ensures Moved(p, p2, a + b, f + g)
  {
    FeedTwice(p.active, a, b);
  }

  lemma NoiseMovesNothing(p: Parser, e: Event)
    requires IsNoise(e)
    ensures Moved(p, Step(p, e), [], [])
  {
    FeedTwice(p.active, [], []);
  }

  lemma FeedPush(active: seq<Open>, o: Open, texts: seq<string>)
    ensures Feed(active + [o], texts) == Feed(active, texts) + [o.(parts := o.parts + texts)]
  {
  }

  lemma OpenElement(p: Parser, attrs: seq<(string, Option<string>)>)
    ensures var p1 := OnStart(p, ELEMENT, attrs);
      && p1.depth == p.depth + 1 && p1.facts == p.facts
      && p1.active == if !Tracked(NameOf(attrs)) then p.active
                      else p.active + [Open(p.depth + 1, NameOf(attrs), Attribute(attrs, "contextref"), [])]
  {
    LowerElement();
  }

  lemma CloseTracked(o: Open, attrs: seq<(string, Option<string>)>, texts: seq<string>)
    requires Tracked(NameOf(attrs)) && o.name == NameOf(attrs) && o.context == Attribute(attrs, "contextref")
      && o.parts == texts
    ensures Closed(o) == FactOf(attrs, texts)
  {
    NormaliseIsWords(IsSpace, ' ', Concat(texts));
  }

  lemma CloseTrackedElement(p: Parser, attrs: seq<(string, Option<string>)>, p2: Parser, texts: seq<string>,
                            facts: seq<Fact>)
    requires Tracked(NameOf(attrs)) && Moved(OnStart(p, ELEMENT, attrs), p2, texts, facts)
    ensures Moved(p, OnEnd(p2, ELEMENT), texts, facts + FactOf(attrs, texts))
  {
    var o := Open(p.depth + 1, NameOf(attrs), Attribute(attrs, "contextref"), []);
    LowerElement();
    OpenElement(p, attrs);
    FeedPush(p.active, o, texts);
    CloseTracked(o.(parts := [] + texts), attrs, texts);
    assert p2.active == Feed(p.active, texts) + [o.(parts := [] + texts)];
    assert p2.facts + FactOf(attrs, texts) == p.facts + (facts + FactOf(attrs, texts));
  }

  lemma CloseOtherElement(p: Parser, attrs: seq<(string, Option<string>)>, p2: Parser, texts: seq<string>,
                          facts: seq<Fact>)
    requires Stacked(p) && !Tracked(NameOf(attrs)) && Moved(OnStart(p, ELEMENT, attrs), p2, texts, facts)
    ensures Moved(p, OnEnd(p2, ELEMENT), texts, facts + FactOf(attrs, texts))
  {
    LowerElement();
    OpenElement(p, attrs);
    if p.active != [] {
      assert p2.active[|p.active| - 1].depth <= p.depth;
    }
  }

  /** A closing tag after balanced children reports the element's own fact and nothing else. */
  lemma CloseElement(p: Parser, attrs: seq<(string, Option<string>)>, p2: Parser, texts: seq<string>, facts: seq<Fact>)
    requires Stacked(p) && Moved(OnStart(p, ELEMENT, attrs), p2, texts, facts)
    ensures Moved(p, OnEnd(p2, ELEMENT), texts, facts + FactOf(attrs, texts))
  {
    if Tracked(NameOf(attrs)) {
      CloseTrackedElement(p, attrs, p2, texts, facts);
    } else {
      CloseOtherElement(p, attrs, p2, texts, facts);
    }
  }

  /** On the tokens of any well-nested document, from any reachable state, the parser refines
    * the tree: same depth, every open element fed the document's texts, facts in post-order.
    */
  lemma {:induction false} ForestRefinesTree(p: Parser, nodes: seq<Node>)
    requires Stacked(p) && WellFormed(nodes)
    ensures Moved(p, RunAll(p, Events(nodes)), Texts(nodes), Facts(nodes))
    decreases nodes
  {
    if nodes == [] {
      FeedTwice(p.active, [], []);
    } else {
      var head, rest := EventsOf(nodes[0]), nodes[1..];
      var p1 := RunAll(p, head);
      NodeRefinesTree(p, nodes[0]);
      AnyStreamStaysStacked(p, head);
      ForestRefinesTree(p1, rest);
      RunAppend(p, head, Events(rest));
      MovedTwice(p, p1, RunAll(p1, Events(rest)), TextsOf(nodes[0]), Texts(rest), FactsOf(nodes[0]), Facts(rest));
    }
  }

  lemma {:induction false} NodeRefinesTree(p: Parser, node: Node)
    requires Stacked(p) && WellFormedNode(node)
    ensures Moved(p, RunAll(p, EventsOf(node)), TextsOf(node), FactsOf(node))
    decreases node
  {
    match node
    case Text(t) =>
      assert RunAll(p, [Data(t)]) == Step(p, Data(t));
    case Noise(e) =>
      assert RunAll(p, [e]) == Step(p, e);
      NoiseMovesNothing(p, e);
    case Element(attrs, children) =>
      var p1 := OnStart(p, ELEMENT, attrs);
      StartStaysStacked(p, ELEMENT, attrs);
      ForestRefinesTree(p1, children);
      CloseElement(p, attrs, RunAll(p1, Events(children)), Texts(children), Facts(children));
      RunElement(p, attrs, Events(children));
  }

  lemma RunElement(p: Parser, attrs: seq<(string, Option<string>)>, inner: seq<Event>)
    ensures RunAll(p, [StartTag(ELEMENT, attrs)] + inner + [EndTag(ELEMENT)])
         == OnEnd(RunAll(OnStart(p, ELEMENT, attrs), inner), ELEMENT)
  {
    var first, last := StartTag(ELEMENT, attrs), EndTag(ELEMENT);
    var p1 := Step(p, first);
    RunAppend(p, [first] + inner, [last]);
    RunAppend(p, [first], inner);
    assert RunAll(p, [first]) == RunAll(p1, []);
    assert RunAll(RunAll(p1, inner), [last]) == RunAll(Step(RunAll(p1, inner), last), []);
  }

  /** From a fresh parser, `facts` is the post-order list of the document. */
  lemma DocumentFacts(nodes: seq<Node>)
    requires WellFormed(nodes)
    ensures RunAll(FRESH, Events(nodes)).facts == Facts(nodes)
    ensures RunAll(FRESH, Events(nodes)).depth == 0 && RunAll(FRESH, Events(nodes)).active == []
  {
    ForestRefinesTree(FRESH, nodes);
  }

  // ---- the parser object ----

  class CoverFactParser {
    var depth: nat
    var active: seq<Open>
    var facts: seq<Fact>
    var inlineTag: bool
    var symbolTag: bool
    var noSymbolFlag: bool

    constructor ()
      ensures Now() == FRESH
    {
      depth, active, facts := 0, [], [];
      inlineTag, symbolTag, noSymbolFlag := false, false, false;
    }

    ghost function Now(): Parser
      reads this
    {
      Parser(depth, active, facts, inlineTag, symbolTag, noSymbolFlag)
    }

    method HandleStartTag(tag: string, attrs: seq<(string, Option<string>)>)
      modifies this
      ensures Now() == OnStart(old(Now()), tag, attrs)
    {
      var name := Lower(tag);
      if name == SYMBOL { symbolTag := true; }
      if name == NO_SYMBOL { noSymbolFlag := true; }
      if name != ELEMENT { return; }
      inlineTag := true;
      depth := depth + 1;
      var fact := NameOf(attrs);
      if fact == NO_SYMBOL { noSymbolFlag := true; }
      if Tracked(fact) { active := active + [Open(depth, fact, Attribute(attrs, "contextref"), [])]; }
    }

    method HandleData(data: string)
      modifies this`active
      ensures Now() == Step(old(Now()), Data(data))
    {
      for i := 0 to |active|
        invariant |active| == |old(active)|
        invariant active[..i] == Feed(old(active), [data])[..i] && active[i..] == old(active)[i..]
      {
        assert active[i] == active[i..][0];
        active := active[i := active[i].(parts := active[i].parts + [data])];
      }
    }

    method HandleEndTag(tag: string)
      modifies this
      ensures Now() == OnEnd(old(Now()), tag)
    {
      if Lower(tag) != ELEMENT { return; }
      if active != [] && active[|active| - 1].depth == depth {
        var top := active[|active| - 1];
        active := active[..|active| - 1];
        var value := Normalise(IsSpace, ' ', Concat(top.parts));
        if value != "" { facts := facts + [Fact(top.name, top.context, value)]; }
      }
      depth := if depth > 0 then depth - 1 else 0;
    }

    /** `feed` of a whole document. */
    method FeedAll(events: seq<Event>)
      modifies this
      ensures Now() == RunAll(old(Now()), events)
    {
      for i := 0 to |events|
        invariant RunAll(Now(), events[i..]) == RunAll(old(Now()), events)
      {
        assert events[i..][0] == events[i] && events[i..][1..] == events[i + 1..];
        match events[i] {
          case StartTag(tag, attrs) => HandleStartTag(tag, attrs);
          case Data(text) => HandleData(text);
          case EndTag(tag) => HandleEndTag(tag);
        }
      }
    }
  }
}
