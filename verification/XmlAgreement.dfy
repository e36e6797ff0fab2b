// The two XML comparisons give the same verdict: equal digests exactly when compareXml
// reports no change. The digest is an idealised, injective hash.
module XmlAgreement {
  import opened Options
  import opened StringKit
  import opened XmlSemantics
  import opened XmlDiff
  import opened XmlVerdict
  import opened XmlTree
  import opened LargeXml

  ghost predicate Ideal(h: Hasher)
  {
    && (forall a, b :: h.node(a) == h.node(b) ==> a == b)
    && (forall a, b :: h.text(a) == h.text(b) ==> a == b)
    && (forall t :: h.text(t) != "")
    && (forall u :: '|' !in h.node(u))
  }

  // What compareXml compares for an element.
  function V(e: Element): (v: Value)
    ensures Item(v)
  {
    RemoveFormattingWhitespace(ParserValue(e))
  }

  function Vs(es: seq<Element>): (vs: seq<Value>)
    ensures |vs| == |es| && forall i | 0 <= i < |es| :: vs[i] == V(es[i])
  {
    seq(|es|, i requires 0 <= i < |es| => V(es[i]))
  }

  function DigestOf(e: Element, path: string, pol: Policies, h: Hasher): string
  {
    Summary(e, path, Sha(pol, h)).digest
  }

  function ChildDigests(es: seq<Element>, path: string, pol: Policies, h: Hasher): (ds: seq<string>)
    ensures |ds| == |es| && forall i | 0 <= i < |es| :: ds[i] == DigestOf(es[i], path + "." + es[i].name, pol, h)
  {
    seq(|es|, i requires 0 <= i < |es| => DigestOf(es[i], path + "." + es[i].name, pol, h))
  }

  // ---- Grouped lists ----

  ghost predicate SameGroups<S>(na: seq<string>, xs: seq<S>, nb: seq<string>, ys: seq<S>)
    requires |na| == |xs| && |nb| == |ys|
  {
    && (forall n :: n in na <==> n in nb)
    && (forall n | n in na :: Pick(na, xs, n) == Pick(nb, ys, n))
  }

  ghost predicate Correspond<S, T>(na: seq<string>, xs: seq<S>, us: seq<T>, nb: seq<string>, ys: seq<S>, vs: seq<T>)
    requires |na| == |xs| == |us| && |nb| == |ys| == |vs|
  {
    forall i, j | 0 <= i < |na| && 0 <= j < |nb| && na[i] == nb[j] :: xs[i] == ys[j] <==> us[i] == vs[j]
  }

  lemma PicksCorrespond<S, T>(na: seq<string>, xs: seq<S>, us: seq<T>, nb: seq<string>, ys: seq<S>, vs: seq<T>, n: string)
    requires |na| == |xs| == |us| && |nb| == |ys| == |vs| && Correspond(na, xs, us, nb, ys, vs)
    ensures SameEqualities(Pick(na, xs, n), Pick(nb, ys, n), Pick(na, us, n), Pick(nb, vs, n))
    ensures Pick(na, xs, n) == Pick(nb, ys, n) <==> Pick(na, us, n) == Pick(nb, vs, n)
  {
    var pa, pb := Positions(na, n), Positions(nb, n);
    assert forall i, j | 0 <= i < |pa| && 0 <= j < |pb| ::
      Pick(na, xs, n)[i] == Pick(nb, ys, n)[j] <==> Pick(na, us, n)[i] == Pick(nb, vs, n)[j];
  }

  // ---- The child map of a frame ----

  lemma {:induction false} GetAppend(m: ChildMap, name: string, node: NodeSummary, n: string)
    ensures Get(Append(m, name, node), n) == Get(m, n) + (if name == n then [node] else [])
    ensures n in Keys(Append(m, name, node)) <==> n in Keys(m) || n == name
  {
    var m' := Append(m, name, node);
    if m == [] {
      assert m'[0].name == name && m'[1..] == [];
      assert Keys(m')[0] == name;
    } else if m[0].name == name {
      assert m'[1..] == m[1..];
      assert forall i | 0 <= i < |m| :: Keys(m')[i] == Keys(m)[i];
      assert Keys(m') == Keys(m);
      assert Keys(m)[0] == name;
    } else {
      assert m'[0] == m[0] && m'[1..] == Append(m[1..], name, node);
      GetAppend(m[1..], name, node, n);
      assert Keys(m') == [m[0].name] + Keys(m'[1..]);
      assert Keys(m) == [m[0].name] + Keys(m[1..]);
    }
  }

  ghost predicate DistinctKeys(m: ChildMap)
  {
    forall i, j | 0 <= i < j < |m| :: m[i].name != m[j].name
  }

  lemma {:induction false} AppendKeepsKeysDistinct(m: ChildMap, name: string, node: NodeSummary)
    requires DistinctKeys(m)
    ensures DistinctKeys(Append(m, name, node))
  {
    if m != [] && m[0].name != name {
      AppendKeepsKeysDistinct(m[1..], name, node);
      forall n ensures n in Keys(Append(m[1..], name, node)) <==> n in Keys(m[1..]) || n == name {
        GetAppend(m[1..], name, node, n);
      }
      var rest := Append(m[1..], name, node);
      forall j | 0 <= j < |rest| ensures rest[j].name != m[0].name {
        assert Keys(rest)[j] in Keys(rest);
        if rest[j].name != name {
          var i :| 0 <= i < |m[1..]| && Keys(m[1..])[i] == rest[j].name;
          assert m[i + 1].name == rest[j].name;
        }
      }
    }
  }

  lemma {:induction false} BuiltMap(names: seq<string>, nodes: seq<NodeSummary>, n: string)
    requires |names| == |nodes|
    ensures Get(BuildMap(names, nodes), n) == Pick(names, nodes, n)
    ensures n in Keys(BuildMap(names, nodes)) <==> n in names
    ensures DistinctKeys(BuildMap(names, nodes))
  {
    if names != [] {
      var last := |names| - 1;
      var m := BuildMap(names[..last], nodes[..last]);
      BuiltMap(names[..last], nodes[..last], n);
      GetAppend(m, names[last], nodes[last], n);
      AppendKeepsKeysDistinct(m, names[last], nodes[last]);
      PickAppend(names[..last], nodes[..last], names[last], nodes[last], n);
      assert names == names[..last] + [names[last]] && nodes == nodes[..last] + [nodes[last]];
    }
  }

  lemma DistinctListsAgree(a: seq<string>, b: seq<string>)
    requires forall i, j | 0 <= i < j < |a| :: a[i] != a[j]
    requires forall i, j | 0 <= i < j < |b| :: b[i] != b[j]
    ensures Sort(a) == Sort(b) <==> forall n :: n in a <==> n in b
  {
    SortIsCanonical(a, b);
    if forall n :: n in a <==> n in b { SameElementsOfDistinct(a, b); }
    if multiset(a) == multiset(b) {
      forall n ensures n in a <==> n in b {
        assert n in a <==> n in multiset(a);
        assert n in b <==> n in multiset(b);
      }
    }
  }

  // ---- What equality of values means for two elements ----

  predicate HasText(e: Element) { !IsBlank(e.text) }

  lemma FieldsOfValue(e: Element, k: Key)
    requires !IsScalar(e)
    ensures V(e).Record?
    ensures k in V(e).fields <==> k in KeysOf(e) && !(k.TextContent? && !HasText(e))
    ensures k in V(e).fields ==> V(e).fields[k] == RemoveFormattingWhitespace(ParserField(e, k))
  {
    var raw := ParserValue(e);
    assert raw.fields == map k | k in KeysOf(e) :: ParserField(e, k);
  }

  lemma ChildKeys(e: Element, n: string)
    ensures Child(n) in KeysOf(e) <==> n in Names(e.children)
  {
    if n in Names(e.children) {
      var i :| 0 <= i < |e.children| && Names(e.children)[i] == n;
      assert e.children[i].name == n;
    }
  }

  lemma GroupOfValue(e: Element, n: string)
    requires n in Names(e.children)
    ensures |Pick(Names(e.children), Vs(e.children), n)| > 0
    ensures RemoveFormattingWhitespace(ParserField(e, Child(n))) == Collect(Pick(Names(e.children), Vs(e.children), n))
  {
    ChildKeys(e, n);
    GroupsAreNonempty(e, n);
    var names := Names(e.children);
    var raw := Pick(names, ParserValues(e.children), n);
    assert seq(|e.children|, i requires 0 <= i < |e.children| => ParserValue(e.children[i])) == ParserValues(e.children);
    assert ParserField(e, Child(n)) == Collect(raw);
    if |raw| > 1 {
      assert RemoveFormattingWhitespace(Array(raw)).items == Pick(names, Vs(e.children), n);
    }
  }

  lemma CollectIsInjective(a: seq<Value>, b: seq<Value>)
    requires AllItems(a) && AllItems(b) && a != [] && b != []
    ensures Collect(a) == Collect(b) <==> a == b
    ensures AsCollection(Collect(a)) == a
  {
  }

  ghost predicate SameAttributesAndText(a: Element, b: Element)
  {
    && a.attributes == b.attributes
    && (HasText(a) <==> HasText(b))
    && (HasText(a) ==> a.text == b.text)
  }

  // What the property map of an element holds.
  ghost predicate FieldMap(f: map<Key, Value>, e: Element)
  {
    && (forall n :: Attribute(n) in f <==> n in e.attributes)
    && (forall n | n in e.attributes :: f[Attribute(n)] == Text(e.attributes[n]))
    && (TextContent in f <==> HasText(e))
    && (TextContent in f ==> f[TextContent] == Text(e.text))
    && (forall n :: Child(n) in f <==> n in Names(e.children))
  }

  lemma FieldMapOf(e: Element) returns (f: map<Key, Value>)
    requires !IsScalar(e)
    ensures V(e) == Record(f) && FieldMap(f, e)
  {
    FieldsOfValue(e, TextContent);
    f := V(e).fields;
    forall n
      ensures Attribute(n) in f <==> n in e.attributes
      ensures n in e.attributes ==> f[Attribute(n)] == Text(e.attributes[n])
      ensures Child(n) in f <==> n in Names(e.children)
    {
      FieldsOfValue(e, Attribute(n));
      FieldsOfValue(e, Child(n));
      ChildKeys(e, n);
    }
  }

  // Two property maps agree on everything but child elements.
  ghost predicate SameHeads(f: map<Key, Value>, g: map<Key, Value>)
  {
    forall k: Key | !k.Child? :: (k in f <==> k in g) && (k in f && k in g ==> f[k] == g[k])
  }

  lemma HeadsOfMaps(f: map<Key, Value>, a: Element, g: map<Key, Value>, b: Element)
    requires FieldMap(f, a) && FieldMap(g, b)
    ensures SameAttributesAndText(a, b) <==> SameHeads(f, g)
  {
    if SameHeads(f, g) {
      forall n
        ensures n in a.attributes <==> n in b.attributes
        ensures n in a.attributes && n in b.attributes ==> a.attributes[n] == b.attributes[n]
      {
        assert Attribute(n) in f <==> Attribute(n) in g;
      }
      assert a.attributes == b.attributes;
    }
  }

  // Agreement property by property is agreement of heads and, name by name, of groups.
  lemma ByParts(f: map<Key, Value>, g: map<Key, Value>, same: Key -> bool, heads: bool,
                na: seq<string>, nb: seq<string>, agree: string -> bool)
    requires forall n :: Child(n) in f <==> n in na
    requires forall n :: Child(n) in g <==> n in nb
    requires forall n | n in na && n in nb :: agree(n) <==> same(Child(n))
    requires heads <==> (forall k: Key | !k.Child? :: (k in f <==> k in g) && (k in f && k in g ==> same(k)))
    ensures (f.Keys == g.Keys && (forall k | k in f :: same(k)))
      <==> (heads && (forall n :: n in na <==> n in nb) && (forall n | n in na :: agree(n)))
  {
    if f.Keys == g.Keys && (forall k | k in f :: same(k)) {
      forall n ensures n in na <==> n in nb {
        assert Child(n) in f.Keys <==> Child(n) in g.Keys;
      }
    }
    if heads && (forall n :: n in na <==> n in nb) && (forall n | n in na :: agree(n)) {
      forall k: Key ensures k in f <==> k in g
        ensures k in f ==> same(k)
      {
        if k.Child? { assert k == Child(k.name); }
      }
    }
  }

  lemma GroupField(e: Element, n: string)
    requires n in Names(e.children)
    ensures !IsScalar(e) && V(e).Record? && Child(n) in V(e).fields
    ensures V(e).fields[Child(n)] == Collect(Pick(Names(e.children), Vs(e.children), n))
    ensures Pick(Names(e.children), Vs(e.children), n) != [] && AllItems(Pick(Names(e.children), Vs(e.children), n))
  {
    ChildKeys(e, n);
    FieldsOfValue(e, Child(n));
    GroupOfValue(e, n);
  }

  lemma EqualByParts(f: map<Key, Value>, a: Element, g: map<Key, Value>, b: Element, agree: string -> bool)
    requires FieldMap(f, a) && FieldMap(g, b)
    requires forall n | n in Names(a.children) && n in Names(b.children) :: agree(n) <==> f[Child(n)] == g[Child(n)]
    ensures f == g
      <==> (SameAttributesAndText(a, b)
        && (forall n :: n in Names(a.children) <==> n in Names(b.children))
        && (forall n | n in Names(a.children) :: agree(n)))
  {
    HeadsOfMaps(f, a, g, b);
    var same := (k: Key) => k in f && k in g && f[k] == g[k];
    ByParts(f, g, same, SameHeads(f, g), Names(a.children), Names(b.children), agree);
    assert f == g <==> (f.Keys == g.Keys && (forall k | k in f :: same(k)));
  }

  // Values are equal exactly when heads and groups of children are.
  lemma ValuesEqual(a: Element, b: Element)
    requires !IsScalar(a) && !IsScalar(b)
    ensures V(a) == V(b)
      <==> (SameAttributesAndText(a, b)
        && SameGroups(Names(a.children), Vs(a.children), Names(b.children), Vs(b.children)))
  {
    var na, nb := Names(a.children), Names(b.children);
    var f := FieldMapOf(a);
    var g := FieldMapOf(b);
    var agree := (n: string) => Pick(na, Vs(a.children), n) == Pick(nb, Vs(b.children), n);
    forall n | n in na && n in nb
      ensures agree(n) <==> f[Child(n)] == g[Child(n)]
    {
      GroupField(a, n);
      GroupField(b, n);
      CollectIsInjective(Pick(na, Vs(a.children), n), Pick(nb, Vs(b.children), n));
    }
    EqualByParts(f, a, g, b, agree);
  }

  // ---- What equality of digests means for two elements ----

  function Significant(e: Element, h: Hasher): string
  {
    if IsScalar(e) || HasText(e) then h.text(e.text) else ""
  }

  function ChildNodes(e: Element, path: string, pol: Policies, h: Hasher): (nodes: seq<NodeSummary>)
    ensures |nodes| == |e.children|
  {
    Summaries(e.children, path, Sha(pol, h))
  }

  lemma FrameOfElement(e: Element, path: string, pol: Policies, h: Hasher)
    ensures var f := FrameOf(e, path, Sha(pol, h));
      && f.name == e.name && f.xmlPath == path && f.attributes == e.attributes
      && (ScalarFrame(f) <==> IsScalar(e))
      && SignificantText(f, h) == Significant(e, h)
      && DistinctKeys(f.children)
      && f.preview == Take(e.text, PREVIEW_LENGTH)
  {
    FrameOfChildren(e, path, Sha(pol, h));
    BuiltMap(Names(e.children), ChildNodes(e, path, pol, h), "");
    if e.children != [] {
      var names, nodes := Names(e.children), ChildNodes(e, path, pol, h);
      BuiltMap(names, nodes, names[0]);
      assert BuildMap(names, nodes) != [];
    }
  }

  lemma GroupOfFrame(e: Element, path: string, pol: Policies, h: Hasher, n: string)
    ensures var f := FrameOf(e, path, Sha(pol, h));
      && Get(f.children, n) == Pick(Names(e.children), ChildNodes(e, path, pol, h), n)
      && (n in Keys(f.children) <==> n in Names(e.children))
  {
    FrameOfChildren(e, path, Sha(pol, h));
    BuiltMap(Names(e.children), ChildNodes(e, path, pol, h), n);
  }

  // The digests one group of children contributes to its parent's hash.
  function Contribution(e: Element, path: string, pol: Policies, h: Hasher, n: string): seq<string>
  {
    GroupDigests(Pick(Names(e.children), ChildNodes(e, path, pol, h), n), path + "." + n, pol)
  }

  ghost predicate SameContributions(a: Element, pa: string, b: Element, pb: string, pol: Policies, h: Hasher)
  {
    && (forall n :: n in Names(a.children) <==> n in Names(b.children))
    && (forall n | n in Names(a.children) :: Contribution(a, pa, pol, h, n) == Contribution(b, pb, pol, h, n))
  }

  lemma UpdatesOfFrames(fa: Frame, fb: Frame, pol: Policies, h: Hasher)
    requires DistinctKeys(fa.children) && DistinctKeys(fb.children)
    ensures Updates(fa, pol, h) == Updates(fb, pol, h)
      <==> (&& fa.name == fb.name && fa.attributes == fb.attributes
            && SignificantText(fa, h) == SignificantText(fb, h)
            && (forall n :: n in Keys(fa.children) <==> n in Keys(fb.children))
            && (forall n | n in Keys(fa.children) ::
                  GroupDigests(Get(fa.children, n), fa.xmlPath + "." + n, pol)
                  == GroupDigests(Get(fb.children, n), fb.xmlPath + "." + n, pol)))
  {
    var ga := GroupUpdates(Sort(Keys(fa.children)), fa, pol);
    var gb := GroupUpdates(Sort(Keys(fb.children)), fb, pol);
    HeadAndTail(Header(fa.name, fa.attributes, SignificantText(fa, h)), ga,
                Header(fb.name, fb.attributes, SignificantText(fb, h)), gb);
    GroupUpdatesEqual(fa, fb, pol);
  }

  lemma GroupUpdatesEqual(fa: Frame, fb: Frame, pol: Policies)
    requires DistinctKeys(fa.children) && DistinctKeys(fb.children)
    ensures GroupUpdates(Sort(Keys(fa.children)), fa, pol) == GroupUpdates(Sort(Keys(fb.children)), fb, pol)
      <==> (&& (forall n :: n in Keys(fa.children) <==> n in Keys(fb.children))
            && (forall n | n in Keys(fa.children) ::
                  GroupDigests(Get(fa.children, n), fa.xmlPath + "." + n, pol)
                  == GroupDigests(Get(fb.children, n), fb.xmlPath + "." + n, pol)))
  {
    DistinctListsAgree(Keys(fa.children), Keys(fb.children));
    SortKeepsMembers(Keys(fa.children));
    LabelledListsEqual(Sort(Keys(fa.children)), n => GroupDigests(Get(fa.children, n), fa.xmlPath + "." + n, pol),
                       Sort(Keys(fb.children)), n => GroupDigests(Get(fb.children, n), fb.xmlPath + "." + n, pol),
                       GroupUpdates(Sort(Keys(fa.children)), fa, pol),
                       GroupUpdates(Sort(Keys(fb.children)), fb, pol));
  }

  lemma LabelledListsEqual(oa: seq<string>, da: string -> seq<string>, ob: seq<string>, db: string -> seq<string>,
                           ga: seq<Update>, gb: seq<Update>)
    requires |ga| == |oa| && forall i | 0 <= i < |oa| :: ga[i] == Group(oa[i], da(oa[i]))
    requires |gb| == |ob| && forall i | 0 <= i < |ob| :: gb[i] == Group(ob[i], db(ob[i]))
    ensures ga == gb <==> (oa == ob && forall n | n in oa :: da(n) == db(n))
  {
    if ga == gb {
      assert forall i | 0 <= i < |oa| :: ga[i].name == oa[i] && gb[i].name == ob[i];
      assert oa == ob;
      forall n | n in oa ensures da(n) == db(n) {
        var i :| 0 <= i < |oa| && oa[i] == n;
        assert ga[i] == gb[i];
      }
    }
  }

  lemma HeadAndTail<T>(x: T, xs: seq<T>, y: T, ys: seq<T>)
    ensures [x] + xs == [y] + ys <==> x == y && xs == ys
  {
    assert ([x] + xs)[0] == x && ([x] + xs)[1..] == xs;
    assert ([y] + ys)[0] == y && ([y] + ys)[1..] == ys;
  }

  lemma SortKeepsMembers(s: seq<string>)
    ensures forall n :: n in Sort(s) <==> n in s
  {
    forall n ensures n in Sort(s) <==> n in s {
      assert n in Sort(s) <==> n in multiset(Sort(s));
      assert n in s <==> n in multiset(s);
    }
  }

  // A frame that holds what has been read of an element, as far as hashing goes.
  ghost predicate Describes(f: Frame, e: Element, path: string, pol: Policies, h: Hasher)
  {
    && f.name == e.name && f.attributes == e.attributes && SignificantText(f, h) == Significant(e, h)
    && DistinctKeys(f.children)
    && (forall n :: n in Keys(f.children) <==> n in Names(e.children))
    && (forall n :: GroupDigests(Get(f.children, n), f.xmlPath + "." + n, pol) == Contribution(e, path, pol, h, n))
  }

  lemma FrameDescribes(e: Element, path: string, pol: Policies, h: Hasher)
    ensures Describes(FrameOf(e, path, Sha(pol, h)), e, path, pol, h)
  {
    var f := FrameOf(e, path, Sha(pol, h));
    FrameOfElement(e, path, pol, h);
    forall n
      ensures n in Keys(f.children) <==> n in Names(e.children)
      ensures GroupDigests(Get(f.children, n), f.xmlPath + "." + n, pol) == Contribution(e, path, pol, h, n)
    {
      GroupOfFrame(e, path, pol, h, n);
    }
  }

  lemma DescribedUpdates(fa: Frame, a: Element, pa: string, fb: Frame, b: Element, pb: string, pol: Policies, h: Hasher)
    requires Describes(fa, a, pa, pol, h) && Describes(fb, b, pb, pol, h)
    ensures Updates(fa, pol, h) == Updates(fb, pol, h)
      <==> (a.name == b.name && a.attributes == b.attributes && Significant(a, h) == Significant(b, h)
            && SameContributions(a, pa, b, pb, pol, h))
  {
    UpdatesOfFrames(fa, fb, pol, h);
  }

  lemma DigestIsHash(e: Element, path: string, pol: Policies, h: Hasher)
    ensures DigestOf(e, path, pol, h) == h.node(Updates(FrameOf(e, path, Sha(pol, h)), pol, h))
  {
  }

  lemma DigestsEqual(a: Element, pa: string, b: Element, pb: string, pol: Policies, h: Hasher)
    requires Ideal(h)
    ensures DigestOf(a, pa, pol, h) == DigestOf(b, pb, pol, h)
      <==> (a.name == b.name && a.attributes == b.attributes && Significant(a, h) == Significant(b, h)
            && SameContributions(a, pa, b, pb, pol, h))
  {
    var fa, fb := FrameOf(a, pa, Sha(pol, h)), FrameOf(b, pb, Sha(pol, h));
    FrameDescribes(a, pa, pol, h);
    FrameDescribes(b, pb, pol, h);
    DescribedUpdates(fa, a, pa, fb, b, pb, pol, h);
    DigestIsHash(a, pa, pol, h);
    DigestIsHash(b, pb, pol, h);
    InjectiveOn(h, Updates(fa, pol, h), Updates(fb, pol, h));
  }

  lemma InjectiveOn(h: Hasher, us: seq<Update>, vs: seq<Update>)
    requires Ideal(h)
    ensures h.node(us) == h.node(vs) <==> us == vs
  {
  }

  lemma HeadsAgree(a: Element, b: Element, h: Hasher)
    requires Ideal(h) && !IsScalar(a) && !IsScalar(b)
    ensures a.attributes == b.attributes && Significant(a, h) == Significant(b, h) <==> SameAttributesAndText(a, b)
  {
  }

  // ---- Below the root, digests are equal exactly when values are ----

  lemma StrictContribution(e: Element, path: string, pol: Policies, h: Hasher, n: string)
    requires !IgnoresOrder(pol, path + "." + n)
    ensures Contribution(e, path, pol, h, n) == Pick(Names(e.children), ChildDigests(e.children, path, pol, h), n)
  {
  }

  lemma DeepChildPath(path: string, n: string)
    requires Bracketless(path) && '.' in path && Bracketless(n)
    ensures Bracketless(path + "." + n) && Deep(StripBrackets(path + "." + n))
  {
    var p := path + "." + n;
    var i :| 0 <= i < |path| && path[i] == '.';
    assert p[i] == '.' && p[|path|] == '.';
    BracketlessIsPlain(p);
  }

  lemma NameOfChild(e: Element, n: string) returns (i: nat)
    requires n in Names(e.children)
    ensures i < |e.children| && e.children[i].name == n
  {
    i :| 0 <= i < |e.children| && Names(e.children)[i] == n;
  }

  lemma {:induction false} DigestDecidesValue(a: Element, pa: string, b: Element, pb: string, pol: Policies, h: Hasher)
    requires Ideal(h) && TopLevelUnordered(pol) && WellNamed(a) && WellNamed(b)
    requires Bracketless(pa) && '.' in pa && Bracketless(pb) && '.' in pb
    ensures DigestOf(a, pa, pol, h) == DigestOf(b, pb, pol, h) <==> a.name == b.name && V(a) == V(b)
    decreases a
  {
    DigestsEqual(a, pa, b, pb, pol, h);
    if IsScalar(a) || IsScalar(b) {
      ScalarsDecided(a, pa, b, pb, pol, h);
    } else {
      var na, nb := Names(a.children), Names(b.children);
      forall i, j | 0 <= i < |na| && 0 <= j < |nb| && na[i] == nb[j]
        ensures ChildDigests(a.children, pa, pol, h)[i] == ChildDigests(b.children, pb, pol, h)[j]
          <==> Vs(a.children)[i] == Vs(b.children)[j]
      {
        DeepChildPath(pa, na[i]);
        DeepChildPath(pb, nb[j]);
        DigestDecidesValue(a.children[i], pa + "." + na[i], b.children[j], pb + "." + nb[j], pol, h);
      }
      StrictGroups(a, pa, b, pb, pol, h);
      HeadsAgree(a, b, h);
      ValuesEqual(a, b);
    }
  }

  lemma ScalarsDecided(a: Element, pa: string, b: Element, pb: string, pol: Policies, h: Hasher)
    requires Ideal(h) && (IsScalar(a) || IsScalar(b))
    ensures (a.attributes == b.attributes && Significant(a, h) == Significant(b, h)
             && SameContributions(a, pa, b, pb, pol, h)) <==> V(a) == V(b)
  {
    if IsScalar(a) && IsScalar(b) {
      assert V(a) == Text(a.text) && V(b) == Text(b.text);
    } else {
      var e := if IsScalar(a) then b else a;
      FieldsOfValue(e, TextContent);
      if e.children != [] {
        assert Names(e.children)[0] in Names(e.children);
      }
    }
  }

  lemma StrictGroups(a: Element, pa: string, b: Element, pb: string, pol: Policies, h: Hasher)
    requires TopLevelUnordered(pol) && WellNamed(a) && WellNamed(b)
    requires Bracketless(pa) && '.' in pa && Bracketless(pb) && '.' in pb
    requires Correspond(Names(a.children), ChildDigests(a.children, pa, pol, h), Vs(a.children),
                        Names(b.children), ChildDigests(b.children, pb, pol, h), Vs(b.children))
    ensures SameContributions(a, pa, b, pb, pol, h)
      <==> SameGroups(Names(a.children), Vs(a.children), Names(b.children), Vs(b.children))
  {
    var na, nb := Names(a.children), Names(b.children);
    forall n | n in na && n in nb
      ensures Contribution(a, pa, pol, h, n) == Contribution(b, pb, pol, h, n)
        <==> Pick(na, Vs(a.children), n) == Pick(nb, Vs(b.children), n)
    {
      var i := NameOfChild(a, n);
      DeepChildPath(pa, n);
      DeepChildPath(pb, n);
      DeepPathsKeepOrder(pol, pa + "." + n);
      DeepPathsKeepOrder(pol, pb + "." + n);
      StrictContribution(a, pa, pol, h, n);
      StrictContribution(b, pb, pol, h, n);
      PicksCorrespond(na, ChildDigests(a.children, pa, pol, h), Vs(a.children),
                      nb, ChildDigests(b.children, pb, pol, h), Vs(b.children), n);
    }
  }
}
