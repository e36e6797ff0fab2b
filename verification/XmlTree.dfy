// Element trees, and the value the small-file parser builds from one.
module XmlTree {
  import opened Options
  import opened StringKit
  import opened XmlDiff

  // `text` is all character data directly inside the element, in document order.
  datatype Element = Element(name: string, attributes: map<string, string>, text: string, children: seq<Element>)

  predicate IsScalar(e: Element)
  {
    e.attributes == map[] && e.children == []
  }

  function Names(es: seq<Element>): (names: seq<string>)
    ensures |names| == |es|
    ensures forall i | 0 <= i < |es| :: names[i] == es[i].name
  {
    seq(|es|, i requires 0 <= i < |es| => es[i].name)
  }

  // The places at which a name occurs, in document order.
  function Positions(names: seq<string>, n: string): (ps: seq<nat>)
    ensures forall k | 0 <= k < |ps| :: ps[k] < |names| && names[ps[k]] == n
    ensures forall i | 0 <= i < |names| && names[i] == n :: i in ps
    ensures forall j, k | 0 <= j < k < |ps| :: ps[j] < ps[k]
  {
    if names == [] then []
    else
      var last := |names| - 1;
      Positions(names[..last], n) + (if names[last] == n then [last] else [])
  }

  // The members of a parallel list that belong to the siblings called `n`.
  function Pick<T>(names: seq<string>, xs: seq<T>, n: string): (r: seq<T>)
    requires |names| == |xs|
    ensures |r| == |Positions(names, n)|
    ensures forall k | 0 <= k < |r| :: r[k] == xs[Positions(names, n)[k]]
  {
    seq(|Positions(names, n)|, k requires 0 <= k < |Positions(names, n)| => xs[Positions(names, n)[k]])
  }

  lemma PositionsAppend(names: seq<string>, m: string, n: string)
    ensures Positions(names + [m], n) == Positions(names, n) + (if m == n then [|names|] else [])
  {
    assert (names + [m])[..|names|] == names;
  }

  lemma PickAppend<T>(names: seq<string>, xs: seq<T>, m: string, x: T, n: string)
    requires |names| == |xs|
    ensures Pick(names + [m], xs + [x], n) == Pick(names, xs, n) + (if m == n then [x] else [])
  {
    PositionsAppend(names, m, n);
  }

  ghost predicate WellNamed(e: Element)
  {
    && e.name != "" && Bracketless(e.name)
    && (forall a | a in e.attributes :: Bracketless("@_" + a))
    && (forall i | 0 <= i < |e.children| :: WellNamed(e.children[i]))
  }

  // ---- The value fast-xml-parser returns for an element ----

  function KeysOf(e: Element): set<Key>
  {
    (set a | a in e.attributes :: Attribute(a))
    + (if e.text == "" then {} else {TextContent})
    + (set i | 0 <= i < |e.children| :: Child(e.children[i].name))
  }

  function Collect(vs: seq<Value>): Value
  {
    if |vs| == 1 then vs[0] else Array(vs)
  }

  function ParserValue(e: Element): (v: Value)
    ensures Item(v)
    decreases e, 1
  {
    if IsScalar(e) then Text(e.text) else Record(map k | k in KeysOf(e) :: ParserField(e, k))
  }

  function ParserField(e: Element, k: Key): Value
    requires k in KeysOf(e)
    decreases e, 0
  {
    match k
    case Attribute(a) => Text(e.attributes[a])
    case TextContent => Text(e.text)
    case Child(n) =>
      var values := seq(|e.children|, i requires 0 <= i < |e.children| => ParserValue(e.children[i]));
      Collect(Pick(Names(e.children), values, n))
  }

  function ParserValues(es: seq<Element>): (vs: seq<Value>)
    ensures |vs| == |es| && forall i | 0 <= i < |es| :: vs[i] == ParserValue(es[i])
  {
    seq(|es|, i requires 0 <= i < |es| => ParserValue(es[i]))
  }

  lemma GroupsAreNonempty(e: Element, n: string)
    requires Child(n) in KeysOf(e)
    ensures |Positions(Names(e.children), n)| > 0
  {
    var i :| 0 <= i < |e.children| && e.children[i].name == n;
    assert i in Positions(Names(e.children), n);
  }

  lemma CollectIsParsed(vs: seq<Value>)
    requires vs != [] && ParsedItems(vs)
    ensures Collect(vs) != Undefined && Parsed(Collect(vs))
  {
  }

  lemma {:induction false} ParserValueIsParsed(e: Element)
    requires WellNamed(e)
    ensures Parsed(ParserValue(e))
    decreases e, 1
  {
    if !IsScalar(e) {
      forall k | k in KeysOf(e)
        ensures ParserField(e, k) != Undefined && Bracketless(RenderKey(k)) && Parsed(ParserField(e, k))
      {
        if k.Child? { GroupIsParsed(e, k.name); }
      }
    }
  }

  lemma {:induction false} GroupIsParsed(e: Element, n: string)
    requires WellNamed(e) && Child(n) in KeysOf(e)
    ensures ParserField(e, Child(n)) != Undefined && Parsed(ParserField(e, Child(n))) && Bracketless(n)
    decreases e, 0
  {
    GroupsAreNonempty(e, n);
    var values := seq(|e.children|, i requires 0 <= i < |e.children| => ParserValue(e.children[i]));
    forall i | 0 <= i < |e.children| ensures Parsed(values[i]) {
      ParserValueIsParsed(e.children[i]);
    }
    CollectIsParsed(Pick(Names(e.children), values, n));
  }
}
