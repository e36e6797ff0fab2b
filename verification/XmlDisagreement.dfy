// Where the two XML comparisons can differ: the agreement condition is exact, plain
// identities are enough for it, and two concrete documents fail it.
module XmlDisagreement {
  import opened Options
  import opened StringKit
  import opened XmlSemantics
  import opened XmlDiff
  import opened XmlVerdict
  import opened XmlTree
  import opened LargeXml
  import opened XmlAgreement
  import opened XmlIdentities
  import opened XmlSameVerdict

  // ---- The condition is necessary: swapping two items exposes a difference ----

  lemma SingleId(ids: seq<Option<string>>)
    requires |ids| == 1
    ensures AllUnique(ids) <==> ids[0].Some?
  {
  }

  lemma SingleItemTest(item: Value, path: string, pol: Policies, h: Hasher)
    ensures SameTest([item], path, pol, h)
  {
    var streamed, ids := StreamedIds([item], IdentityKeysAt(pol, path), h), Identities([item], path, pol);
    SingleId(streamed);
    SingleId(ids);
  }

  lemma TellsTwoApart(items: seq<Value>, path: string, pol: Policies, h: Hasher)
    requires !SameTest(items, path, pol, h)
    ensures |items| >= 2 && items[0] != items[1]
  {
    var streamed, ids := StreamedIds(items, IdentityKeysAt(pol, path), h), Identities(items, path, pol);
    assert |items| != 1 by {
      if |items| == 1 {
        assert items == [items[0]];
        SingleItemTest(items[0], path, pol, h);
      }
    }
    assert |items| != 0;
    assert streamed[0] != streamed[1] || ids[0] != ids[1];
  }

  function SwapIn<T>(s: seq<T>, i: nat, j: nat): (r: seq<T>)
    requires i < j < |s|
    ensures multiset(r) == multiset(s) && |r| == |s|
  {
    assert s == s[..i] + [s[i]] + s[i + 1..j] + [s[j]] + s[j + 1..];
    assert s[i := s[j]][j := s[i]] == s[..i] + [s[j]] + s[i + 1..j] + [s[i]] + s[j + 1..];
    s[i := s[j]][j := s[i]]
  }

  function Swapped(e: Element, i: nat, j: nat): Element
    requires i < j < |e.children|
  {
    e.(children := SwapIn(e.children, i, j))
  }

  lemma SwapKeepsNames(es: seq<Element>, i: nat, j: nat)
    requires i < j < |es| && es[i].name == es[j].name
    ensures Names(SwapIn(es, i, j)) == Names(es)
    ensures Vs(SwapIn(es, i, j)) == SwapIn(Vs(es), i, j)
  {
  }

  lemma SwapKeepsWellNamed(e: Element, i: nat, j: nat)
    requires i < j < |e.children| && WellNamed(e)
    ensures WellNamed(Swapped(e, i, j))
  {
    var es := Swapped(e, i, j).children;
    assert forall k | 0 <= k < |es| :: es[k] == e.children[if k == i then j else if k == j then i else k];
  }

  lemma SwapInGroup(names: seq<string>, values: seq<Value>, n: string)
    requires |names| == |values| && |Positions(names, n)| >= 2
    ensures var i, j := Positions(names, n)[0], Positions(names, n)[1];
      Pick(names, SwapIn(values, i, j), n) == SwapIn(Pick(names, values, n), 0, 1)
  {
    var ps := Positions(names, n);
    var after := SwapIn(values, ps[0], ps[1]);
    assert forall k | 2 <= k < |ps| :: after[ps[k]] == values[ps[k]];
  }

  lemma SwapElsewhere(names: seq<string>, values: seq<Value>, i: nat, j: nat, m: string)
    requires |names| == |values| && i < j < |names| && names[i] == names[j] != m
    ensures Pick(names, SwapIn(values, i, j), m) == Pick(names, values, m)
  {
  }

  lemma UnchangedGroupAgrees(items: seq<Value>, path: string, pol: Policies, h: Hasher)
    ensures SameCollection(items, items, path, pol) && StreamedSame(items, items, path, pol, h)
  {
  }

  lemma SwappedGroupDiffers(left: seq<Value>, right: seq<Value>, path: string, pol: Policies, h: Hasher)
    requires IgnoresOrder(pol, path) && !SameTest(left, path, pol, h)
    requires multiset(left) == multiset(right) && left != right
    ensures SameCollection(left, right, path, pol) <==> AllUnique(Identities(left, path, pol))
    ensures SameCollection(left, right, path, pol) != StreamedSame(left, right, path, pol, h)
  {
    LooseCollections(left, right, path, pol, h);
  }

  // The document with the first two siblings called `n` exchanged.
  function SwappedFirstTwo(e: Element, n: string): Element
    requires |Positions(Names(e.children), n)| >= 2
  {
    var ps := Positions(Names(e.children), n);
    Swapped(e, ps[0], ps[1])
  }

  lemma SwapAtGroup(a: Element, n: string) returns (b: Element)
    requires WellNamed(a) && |GroupValues(a, n)| >= 2
    ensures b == SwappedFirstTwo(a, n)
    ensures WellNamed(b) && b.name == a.name && SameAttributesAndText(a, b) && !IsScalar(a) && !IsScalar(b)
    ensures Names(b.children) == Names(a.children)
    ensures GroupValues(b, n) == SwapIn(GroupValues(a, n), 0, 1)
    ensures forall m | m != n :: GroupValues(b, m) == GroupValues(a, m)
  {
    var names := Names(a.children);
    var i, j := Positions(names, n)[0], Positions(names, n)[1];
    b := SwappedFirstTwo(a, n);
    SwapKeepsNames(a.children, i, j);
    SwapKeepsWellNamed(a, i, j);
    SwapInGroup(names, Vs(a.children), n);
    forall m | m != n ensures GroupValues(b, m) == GroupValues(a, m) {
      SwapElsewhere(names, Vs(a.children), i, j, m);
    }
  }

  lemma OneGroupDecides(a: Element, b: Element, n: string, same: (seq<Value>, seq<Value>, string) -> bool)
    requires SameAttributesAndText(a, b) && Names(b.children) == Names(a.children) && n in Names(a.children)
    requires forall m | m != n :: same(GroupValues(a, m), GroupValues(b, m), m)
    ensures RootGroups(a, b, same) <==> same(GroupValues(a, n), GroupValues(b, n), n)
  {
  }

  lemma SwapExposes(a: Element, n: string, pol: Policies, h: Hasher) returns (b: Element)
    requires Ideal(h) && TopLevelUnordered(pol) && WellNamed(a)
    requires n in Names(a.children) && IgnoresOrder(pol, a.name + "." + n)
    requires !SameTest(GroupValues(a, n), a.name + "." + n, pol, h)
    ensures |Positions(Names(a.children), n)| >= 2 && b == SwappedFirstTwo(a, n) && WellNamed(b)
    ensures SmallSame(a, b, pol) <==> AllUnique(Identities(GroupValues(a, n), a.name + "." + n, pol))
    ensures LargeSame(a, b, pol, h) != SmallSame(a, b, pol)
  {
    var path := a.name + "." + n;
    TellsTwoApart(GroupValues(a, n), path, pol, h);
    b := SwapAtGroup(a, n);
    RootVerdicts(a, b, pol, h);
    SwappedGroupDiffers(GroupValues(a, n), GroupValues(b, n), path, pol, h);
    forall m | m != n
      ensures Streaming(a.name, pol, h)(GroupValues(a, m), GroupValues(b, m), m)
      ensures Recursively(a.name, pol)(GroupValues(a, m), GroupValues(b, m), m)
    {
      UnchangedGroupAgrees(GroupValues(a, m), a.name + "." + m, pol, h);
    }
    OneGroupDecides(a, b, n, Streaming(a.name, pol, h));
    OneGroupDecides(a, b, n, Recursively(a.name, pol));
  }

  // The condition is exact: a document that meets it is compared alike with every other
  // document, and one that does not is not.
  lemma AgreementIsExact(a: Element, pol: Policies, h: Hasher)
    requires Ideal(h) && TopLevelUnordered(pol) && WellNamed(a)
    ensures SameTests(a, pol, h)
      <==> (forall b | WellNamed(b) :: LargeSame(a, b, pol, h) <==> SmallSame(a, b, pol))
  {
    if SameTests(a, pol, h) {
      forall b | WellNamed(b) ensures LargeSame(a, b, pol, h) <==> SmallSame(a, b, pol) {
        LargeAgreesWithSmall(a, b, pol, h);
      }
    } else {
      var n :| n in Names(a.children) && IgnoresOrder(pol, a.name + "." + n)
        && !SameTest(GroupValues(a, n), a.name + "." + n, pol, h);
      var b := SwapExposes(a, n, pol, h);
    }
  }

  // ---- Plain identities suffice ----

  // Every order-insensitive collection of the document has plain identities.
  ghost predicate PlainDocument(e: Element, pol: Policies, h: Hasher)
  {
    forall n | n in Names(e.children) && IgnoresOrder(pol, e.name + "." + n) ::
      PlainIdentities(GroupOf(e, n), IdentityKeysAt(pol, e.name + "." + n), h)
  }

  // For every metadata type, documents with plain identities get one verdict, whichever
  // comparison their size selects.
  lemma PlainDocumentsAgree(a: Element, b: Element, metadataType: Option<string>, h: Hasher)
    requires Ideal(h) && WellNamed(a) && WellNamed(b)
    requires PlainDocument(a, PoliciesFor(metadataType), h) || PlainDocument(b, PoliciesFor(metadataType), h)
    ensures LargeSame(a, b, PoliciesFor(metadataType), h) <==> SmallSame(a, b, PoliciesFor(metadataType))
  {
    var pol := PoliciesFor(metadataType);
    RegisteredPoliciesAreTopLevel(metadataType);
    if PlainDocument(a, pol, h) {
      PlainMeetsTests(a, pol, h);
      LargeAgreesWithSmall(a, b, pol, h);
    } else {
      PlainMeetsTests(b, pol, h);
      LargeAgreesWithSmall(b, a, pol, h);
      SmallIsSymmetric(a, b, pol);
    }
  }

  lemma PlainMeetsTests(e: Element, pol: Policies, h: Hasher)
    requires Ideal(h) && TopLevelUnordered(pol) && PlainDocument(e, pol, h)
    ensures SameTests(e, pol, h)
  {
    forall n | n in Names(e.children) && IgnoresOrder(pol, e.name + "." + n)
      ensures SameTest(GroupValues(e, n), e.name + "." + n, pol, h)
    {
      PlainIdentitiesSuffice(e, n, e.name + "." + n, pol, h);
    }
  }

  lemma SmallIsSymmetric(a: Element, b: Element, pol: Policies)
    requires TopLevelUnordered(pol) && WellNamed(a) && WellNamed(b)
    ensures SmallSame(a, b, pol) <==> SmallSame(b, a, pol)
  {
    ParserValueIsParsed(a);
    ParserValueIsParsed(b);
    CompareXmlIsEquivalence(a.name, ParserValue(a), b.name, ParserValue(b), a.name, ParserValue(a), pol);
    CompareXmlIsEquivalence(b.name, ParserValue(b), a.name, ParserValue(a), b.name, ParserValue(b), pol);
  }

  // ---- Two documents on which the verdicts differ ----

  function Leaf(name: string, text: string): Element
  {
    Element(name, map[], text, [])
  }

  function Document2(root: string, item: string, x: seq<Element>, y: seq<Element>): Element
  {
    Element(root, map[], "", [Element(item, map[], "", x), Element(item, map[], "", y)])
  }

  lemma TwoPlaces(item: string)
    ensures Positions([item, item], item) == [0, 1]
  {
    PositionsAppend([], item, item);
    PositionsAppend([item], item, item);
    assert [item, item] == [item] + [item] && [item] == [] + [item];
  }

  lemma TwoItems(root: string, item: string, x: seq<Element>, y: seq<Element>)
    ensures var e := Document2(root, item, x, y);
      && Positions(Names(e.children), item) == [0, 1]
      && GroupValues(e, item) == [V(Element(item, map[], "", x)), V(Element(item, map[], "", y))]
      && item in Names(e.children)
      && SwappedFirstTwo(e, item) == Document2(root, item, y, x)
  {
    var e := Document2(root, item, x, y);
    var names := Names(e.children);
    assert names == [item, item];
    TwoPlaces(item);
    PickOfTwo(names, Vs(e.children), item);
    SwapOfTwo(e.children[0], e.children[1]);
  }

  lemma PickOfTwo(names: seq<string>, values: seq<Value>, item: string)
    requires |names| == |values| == 2 && Positions(names, item) == [0, 1]
    ensures Pick(names, values, item) == [values[0], values[1]]
  {
  }

  lemma SwapOfTwo(x: Element, y: Element)
    ensures SwapIn([x, y], 0, 1) == [y, x]
  {
  }

  lemma OneKey(item: string, key: string, text: string)
    ensures IdentityPairs(V(Element(item, map[], "", [Leaf(key, text)])), [key]) == [(key, text)]
  {
    var e := Element(item, map[], "", [Leaf(key, text)]);
    RecursiveIdentity(e, [key]);
    assert Names(e.children) == [key] && [key][..0] == [] && [key][1..] == [];
    assert Positions([key], key) == [0];
    assert IdTexts(e, []) == [];
  }

  lemma TwoKeys(item: string, k1: string, t1: string, k2: string, t2: string)
    requires k1 != k2
    ensures IdentityPairs(V(Element(item, map[], "", [Leaf(k1, t1), Leaf(k2, t2)])), [k1, k2]) == [(k1, t1), (k2, t2)]
  {
    var e := Element(item, map[], "", [Leaf(k1, t1), Leaf(k2, t2)]);
    RecursiveIdentity(e, [k1, k2]);
    var names := Names(e.children);
    assert names == [k1, k2] && names[..1] == [k1] && [k1][..0] == [];
    assert Positions([k1], k1) == [0] && Positions([k1], k2) == [];
    assert Positions(names, k1) == [0] && Positions(names, k2) == [1];
    assert [k1, k2][1..] == [k2] && [k2][1..] == [];
    assert IdTexts(e, []) == [];
    assert IdTexts(e, [k2]) == [(k2, t2)];
  }

  lemma WellNamedLeaves(k1: string, t1: string, k2: string, t2: string)
    requires XmlName(k1) && XmlName(k2)
    ensures forall i | 0 <= i < 2 :: WellNamed([Leaf(k1, t1), Leaf(k2, t2)][i])
  {
    assert WellNamed(Leaf(k1, t1)) && WellNamed(Leaf(k2, t2));
  }

  lemma WellNamedPair(root: string, item: string, x: seq<Element>, y: seq<Element>)
    requires XmlName(root) && XmlName(item)
    requires forall i | 0 <= i < |x| :: WellNamed(x[i])
    requires forall i | 0 <= i < |y| :: WellNamed(y[i])
    ensures WellNamed(Document2(root, item, x, y))
  {
    assert WellNamed(Element(item, map[], "", x)) && WellNamed(Element(item, map[], "", y));
  }

  ghost predicate PairIds(ids: seq<Option<string>>, x: string, y: string)
  {
    |ids| == 2 && ids[0] == Some(x) && ids[1] == Some(y)
  }

  lemma PairIsUnique(ids: seq<Option<string>>, x: string, y: string)
    requires PairIds(ids, x, y)
    ensures AllUnique(ids) <==> x != y
  {
  }

  // A two-item document, decided by the joined identities of its items.
  lemma TwoItemsDisagree(root: string, item: string, x: seq<Element>, y: seq<Element>, keys: seq<string>,
                         px: seq<(string, string)>, py: seq<(string, string)>, pol: Policies, h: Hasher)
    requires Ideal(h) && TopLevelUnordered(pol) && WellNamed(Document2(root, item, x, y))
    requires FindPolicy(pol, root + "." + item) == Some(Unordered(keys))
    requires IdentityPairs(V(Element(item, map[], "", x)), keys) == px && px != []
    requires IdentityPairs(V(Element(item, map[], "", y)), keys) == py && py != []
    requires (JoinPairs(px) == JoinPairs(py)) != (JoinPairs(Tokens(h, px)) == JoinPairs(Tokens(h, py)))
    ensures SmallSame(Document2(root, item, x, y), Document2(root, item, y, x), pol) <==> JoinPairs(px) != JoinPairs(py)
    ensures LargeSame(Document2(root, item, x, y), Document2(root, item, y, x), pol, h) <==> JoinPairs(px) == JoinPairs(py)
  {
    var a := Document2(root, item, x, y);
    var path := root + "." + item;
    TwoItems(root, item, x, y);
    var values := GroupValues(a, item);
    PairIsUnique(StreamedIds(values, keys, h), JoinPairs(Tokens(h, px)), JoinPairs(Tokens(h, py)));
    PairIsUnique(Identities(values, path, pol), JoinPairs(px), JoinPairs(py));
    var b := SwapExposes(a, item, pol, h);
  }

  // A label whose name is the very digest that stands for another, long name.
  lemma DigestLookalikeDisagrees(root: string, item: string, key: string, long: string, pol: Policies, h: Hasher)
    requires Ideal(h) && TopLevelUnordered(pol)
    requires XmlName(root) && XmlName(item) && XmlName(key)
    requires FindPolicy(pol, root + "." + item) == Some(Unordered([key]))
    requires |LongToken(h, key, long)| < PREVIEW_LENGTH <= |long|
    ensures var x, y := [Leaf(key, long)], [Leaf(key, LongToken(h, key, long))];
      var a, b := Document2(root, item, x, y), Document2(root, item, y, x);
      SmallSame(a, b, pol) && !LargeSame(a, b, pol, h)
  {
    var fake := LongToken(h, key, long);
    OneKey(item, key, long);
    OneKey(item, key, fake);
    TokensOfOne(h, key, long);
    TokensOfOne(h, key, fake);
    SingleJoin((key, long), (key, fake));
    WellNamedPair(root, item, [Leaf(key, long)], [Leaf(key, fake)]);
    TwoItemsDisagree(root, item, [Leaf(key, long)], [Leaf(key, fake)], [key], [(key, long)], [(key, fake)], pol, h);
  }

  lemma TokensOfOne(h: Hasher, key: string, text: string)
    ensures Tokens(h, [(key, text)]) == [(key, Token(h, key, text))]
  {
  }

  lemma TokensOfTwo(h: Hasher, k1: string, t1: string, k2: string, t2: string)
    ensures Tokens(h, [(k1, t1), (k2, t2)]) == [(k1, Token(h, k1, t1)), (k2, Token(h, k2, t2))]
  {
  }

  lemma JoinOfTwo(k1: string, t1: string, k2: string, t2: string)
    ensures JoinPairs([(k1, t1), (k2, t2)]) == k1 + "=" + t1 + "|" + k2 + "=" + t2
  {
    assert [(k1, t1), (k2, t2)][1..] == [(k2, t2)];
  }

  lemma CollidingJoinsDisagree(root: string, item: string, k1: string, l: string, k2: string, u: string, l': string, u': string,
                               pol: Policies, h: Hasher)
    requires Ideal(h) && TopLevelUnordered(pol)
    requires XmlName(root) && XmlName(item) && XmlName(k1) && XmlName(k2) && k1 != k2
    requires FindPolicy(pol, root + "." + item) == Some(Unordered([k1, k2]))
    requires l != l' && |l| >= PREVIEW_LENGTH && |l'| >= PREVIEW_LENGTH && |u| < PREVIEW_LENGTH && |u'| < PREVIEW_LENGTH
    requires JoinPairs([(k1, l), (k2, u)]) == JoinPairs([(k1, l'), (k2, u')])
    ensures var x, y := [Leaf(k1, l), Leaf(k2, u)], [Leaf(k1, l'), Leaf(k2, u')];
      var a, b := Document2(root, item, x, y), Document2(root, item, y, x);
      !SmallSame(a, b, pol) && LargeSame(a, b, pol, h)
  {
    var x, y := [Leaf(k1, l), Leaf(k2, u)], [Leaf(k1, l'), Leaf(k2, u')];
    TwoKeys(item, k1, l, k2, u);
    TwoKeys(item, k1, l', k2, u');
    TokensApart(h, k1, l, k2, u, l', u');
    WellNamedLeaves(k1, l, k2, u);
    WellNamedLeaves(k1, l', k2, u');
    WellNamedPair(root, item, x, y);
    TwoItemsDisagree(root, item, x, y, [k1, k2], [(k1, l), (k2, u)], [(k1, l'), (k2, u')], pol, h);
  }

  // Two assignments whose joined identities read the same, because one long value holds
  // the separator.
  lemma SeparatorInTextDisagrees(root: string, item: string, k1: string, k2: string, long: string, t: string, u: string,
                                 pol: Policies, h: Hasher)
    requires Ideal(h) && TopLevelUnordered(pol)
    requires XmlName(root) && XmlName(item) && XmlName(k1) && XmlName(k2) && k1 != k2
    requires FindPolicy(pol, root + "." + item) == Some(Unordered([k1, k2]))
    requires |long| >= PREVIEW_LENGTH && |u| < PREVIEW_LENGTH && |t + "|" + k2 + "=" + u| < PREVIEW_LENGTH
    ensures var x := [Leaf(k1, long + "|" + k2 + "=" + t), Leaf(k2, u)];
      var y := [Leaf(k1, long), Leaf(k2, t + "|" + k2 + "=" + u)];
      var a, b := Document2(root, item, x, y), Document2(root, item, y, x);
      !SmallSame(a, b, pol) && LargeSame(a, b, pol, h)
  {
    var long' := long + "|" + k2 + "=" + t;
    JoinsCollide(k1, long, k2, t, u);
    CollidingJoinsDisagree(root, item, k1, long', k2, u, long, t + "|" + k2 + "=" + u, pol, h);
  }

  lemma TokensApart(h: Hasher, k1: string, long: string, k2: string, u: string, long': string, u': string)
    requires Ideal(h) && long != long' && |long| >= PREVIEW_LENGTH && |long'| >= PREVIEW_LENGTH
    requires |u| < PREVIEW_LENGTH && |u'| < PREVIEW_LENGTH
    ensures JoinPairs(Tokens(h, [(k1, long), (k2, u)])) != JoinPairs(Tokens(h, [(k1, long'), (k2, u')]))
  {
    TokensOfTwo(h, k1, long, k2, u);
    TokensOfTwo(h, k1, long', k2, u');
    DifferentLongTokens(h, k1, long, long');
    JoinsApart(k1, LongToken(h, k1, long), k2, u, LongToken(h, k1, long'), u');
  }

  lemma JoinsCollide(k1: string, long: string, k2: string, t: string, u: string)
    ensures JoinPairs([(k1, long + "|" + k2 + "=" + t), (k2, u)]) == JoinPairs([(k1, long), (k2, t + "|" + k2 + "=" + u)])
  {
    JoinOfTwo(k1, long + "|" + k2 + "=" + t, k2, u);
    JoinOfTwo(k1, long, k2, t + "|" + k2 + "=" + u);
    assert k1 + "=" + (long + "|" + k2 + "=" + t) + "|" + k2 + "=" + u
      == k1 + "=" + long + "|" + k2 + "=" + (t + "|" + k2 + "=" + u);
  }

  lemma DifferentLongTokens(h: Hasher, key: string, s: string, t: string)
    requires Ideal(h) && s != t
    ensures LongToken(h, key, s) != LongToken(h, key, t)
  {
    var us, vs := [Header(key, map[], h.text(s))], [Header(key, map[], h.text(t))];
    InjectiveOn(h, us, vs);
    assert us[0] != vs[0];
  }

  lemma JoinsApart(k1: string, d: string, k2: string, u: string, e: string, v: string)
    requires '|' !in d && '|' !in e && d != e
    ensures JoinPairs([(k1, d), (k2, u)]) != JoinPairs([(k1, e), (k2, v)])
  {
    JoinOfTwo(k1, d, k2, u);
    JoinOfTwo(k1, e, k2, v);
    var p, x, y := k1 + "=", k2 + "=" + u, k2 + "=" + v;
    assert k1 + "=" + d + "|" + k2 + "=" + u == p + (d + ['|'] + x);
    assert k1 + "=" + e + "|" + k2 + "=" + v == p + (e + ['|'] + y);
    if p + (d + ['|'] + x) == p + (e + ['|'] + y) {
      assert d + ['|'] + x == (p + (d + ['|'] + x))[|p|..];
      assert e + ['|'] + y == (p + (e + ['|'] + y))[|p|..];
      SplitAtFirst(d, '|', x, e, y);
    }
  }

  // ---- Both happen under policies the program registers ----

  function Letters(n: nat): (s: string)
    ensures |s| == n
  {
    seq(n, _ => 'a')
  }

  lemma PolicyBelowRoot(pol: Policies, n: string)
    requires Bracketless(pol.root) && Bracketless(n)
    ensures FindPolicy(pol, pol.root + "." + n) == Lookup(pol.collections, n)
  {
    var path := pol.root + "." + n;
    assert Bracketless(path);
    BracketlessIsPlain(path);
    assert path[|pol.root + "."|..] == n;
  }

  lemma LayoutAssignmentsPolicy()
    ensures Lookup(PROFILE_COLLECTIONS, "layoutAssignments") == Some(Unordered(["layout", "recordType"]))
  {
    assert Lookup(PROFILE_COLLECTIONS_FROM_FLOW, "layoutAssignments") == Some(Unordered(["layout", "recordType"]));
  }

  // Two layout assignments of a profile in the other order: different for the small-file
  // comparison, equal for the large-file one.
  lemma ProfilesCanDisagree(h: Hasher) returns (a: Element, b: Element)
    requires Ideal(h)
    ensures !SmallSame(a, b, PoliciesFor(Some("Profile"))) && LargeSame(a, b, PoliciesFor(Some("Profile")), h)
  {
    var pol := PoliciesFor(Some("Profile"));
    RegisteredPoliciesAreTopLevel(Some("Profile"));
    LayoutAssignmentsPolicy();
    ProfileNames();
    PolicyBelowRoot(pol, "layoutAssignments");
    var l, k2 := Letters(PREVIEW_LENGTH), "recordType";
    var x := [Leaf("layout", l + "|" + k2 + "=" + ""), Leaf(k2, "")];
    var y := [Leaf("layout", l), Leaf(k2, "" + "|" + k2 + "=" + "")];
    a, b := Document2("Profile", "layoutAssignments", x, y), Document2("Profile", "layoutAssignments", y, x);
    SeparatorInTextDisagrees("Profile", "layoutAssignments", "layout", k2, l, "", "", pol, h);
  }

  lemma ProfileNames()
    ensures XmlName("Profile") && XmlName("layoutAssignments") && XmlName("layout") && XmlName("recordType")
  {
    assert Bracketless("Profile");
    assert Bracketless("layoutAssignments");
    assert Bracketless("layout");
    assert Bracketless("recordType");
  }

  // Two labels in the other order: equal for the small-file comparison, different for the
  // large-file one.
  lemma LabelsCanDisagree(h: Hasher) returns (a: Element, b: Element)
    requires Ideal(h) && |LongToken(h, "fullName", Letters(PREVIEW_LENGTH))| < PREVIEW_LENGTH
    ensures SmallSame(a, b, PoliciesFor(Some("CustomLabels"))) && !LargeSame(a, b, PoliciesFor(Some("CustomLabels")), h)
  {
    var pol := PoliciesFor(Some("CustomLabels"));
    RegisteredPoliciesAreTopLevel(Some("CustomLabels"));
    LabelNames();
    PolicyBelowRoot(pol, "labels");
    var l := Letters(PREVIEW_LENGTH);
    var x, y := [Leaf("fullName", l)], [Leaf("fullName", LongToken(h, "fullName", l))];
    a, b := Document2("CustomLabels", "labels", x, y), Document2("CustomLabels", "labels", y, x);
    DigestLookalikeDisagrees("CustomLabels", "labels", "fullName", l, pol, h);
  }

  lemma LabelNames()
    ensures XmlName("CustomLabels") && XmlName("labels") && XmlName("fullName")
  {
    assert Bracketless("CustomLabels");
    assert Bracketless("labels");
    assert Bracketless("fullName");
  }
}
