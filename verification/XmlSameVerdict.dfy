// The agreement theorem for whole documents, where order-insensitive collections occur:
// exactly when the streaming comparison is the recursive one.
module XmlSameVerdict {
  import opened Options
  import opened StringKit
  import opened XmlSemantics
  import opened XmlDiff
  import opened XmlVerdict
  import opened XmlTree
  import opened LargeXml
  import opened XmlAgreement
  import opened XmlIdentities

  // ---- One collection below the root ----

  // The digests of a group as they are hashed.
  function Hashed(digests: seq<string>, unique: bool): seq<string>
  {
    if unique then Sort(digests) else digests
  }

  ghost predicate StreamedUnique(items: seq<Value>, path: string, pol: Policies, h: Hasher)
  {
    AllUnique(StreamedIds(items, IdentityKeysAt(pol, path), h))
  }

  lemma SameListsSameValues<A, B>(da: seq<A>, db: seq<A>, left: seq<B>, right: seq<B>)
    requires SameEqualities(da, db, left, right)
    ensures da == db <==> left == right
    ensures multiset(da) == multiset(db) <==> multiset(left) == multiset(right)
  {
    if multiset(da) == multiset(db) { PermutationTransfer(da, db, left, right); }
    if multiset(left) == multiset(right) { PermutationTransfer(left, right, da, db); }
  }

  lemma HashedLists(da: seq<string>, ua: bool, db: seq<string>, ub: bool)
    ensures Hashed(da, ua) == Hashed(db, ub) ==> multiset(da) == multiset(db)
    ensures ua && ub ==> (Hashed(da, ua) == Hashed(db, ub) <==> multiset(da) == multiset(db))
  {
    SortIsCanonical(da, db);
    SortIsPermutation(da);
    SortIsPermutation(db);
  }

  lemma SortIsPermutation(s: seq<string>)
    ensures multiset(Sort(s)) == multiset(s)
  {
  }

  // What the streaming comparison decides about one order-insensitive group.
  lemma LooseGroupsAgree(da: seq<string>, db: seq<string>, left: seq<Value>, right: seq<Value>, path: string, pol: Policies, h: Hasher)
    requires SameEqualities(da, db, left, right)
    ensures Hashed(da, StreamedUnique(left, path, pol, h)) == Hashed(db, StreamedUnique(right, path, pol, h))
      <==> if StreamedUnique(left, path, pol, h) then multiset(left) == multiset(right) else left == right
  {
    var ua, ub := StreamedUnique(left, path, pol, h), StreamedUnique(right, path, pol, h);
    SameListsSameValues(da, db, left, right);
    HashedLists(da, ua, db, ub);
    if multiset(left) == multiset(right) {
      UniquenessIgnoresOrder(left, right, path, pol, IdentityKeysAt(pol, path), h);
    }
  }

  // What the recursive comparison decides about it.
  lemma LooseCollections(left: seq<Value>, right: seq<Value>, path: string, pol: Policies, h: Hasher)
    requires IgnoresOrder(pol, path)
    ensures SameCollection(left, right, path, pol)
      <==> if AllUnique(Identities(left, path, pol)) then multiset(left) == multiset(right) else left == right
  {
    if multiset(left) == multiset(right) {
      UniquenessIgnoresOrder(left, right, path, pol, IdentityKeysAt(pol, path), h);
    }
  }

  lemma ContributionOf(e: Element, path: string, n: string, pol: Policies, h: Hasher)
    ensures Contribution(e, path, pol, h, n)
      == Hashed(Pick(Names(e.children), ChildDigests(e.children, path, pol, h), n),
                IgnoresOrder(pol, path + "." + n) && UniqueIdentities(GroupNodes(e, n, path, pol, h)))
  {
    assert Digests(GroupNodes(e, n, path, pol, h)) == Pick(Names(e.children), ChildDigests(e.children, path, pol, h), n);
  }

  lemma DottedPath(path: string, n: string)
    requires Bracketless(path) && Bracketless(n)
    ensures Bracketless(path + "." + n) && '.' in path + "." + n
  {
    assert (path + "." + n)[|path|] == '.';
  }

  lemma ChildrenDecided(a: Element, b: Element, path: string, pol: Policies, h: Hasher)
    requires Ideal(h) && TopLevelUnordered(pol) && WellNamed(a) && WellNamed(b) && Bracketless(path)
    ensures Correspond(Names(a.children), ChildDigests(a.children, path, pol, h), Vs(a.children),
                       Names(b.children), ChildDigests(b.children, path, pol, h), Vs(b.children))
  {
    var na, nb := Names(a.children), Names(b.children);
    forall i, j | 0 <= i < |na| && 0 <= j < |nb| && na[i] == nb[j]
      ensures ChildDigests(a.children, path, pol, h)[i] == ChildDigests(b.children, path, pol, h)[j]
        <==> Vs(a.children)[i] == Vs(b.children)[j]
    {
      DottedPath(path, na[i]);
      DigestDecidesValue(a.children[i], path + "." + na[i], b.children[j], path + "." + nb[j], pol, h);
    }
  }

  // Whether a group contributes the same to both hashes, in terms of its values.
  ghost predicate StreamedSame(left: seq<Value>, right: seq<Value>, path: string, pol: Policies, h: Hasher)
  {
    if IgnoresOrder(pol, path) && StreamedUnique(left, path, pol, h) then multiset(left) == multiset(right) else left == right
  }

  lemma GroupDecided(a: Element, b: Element, path: string, n: string, pol: Policies, h: Hasher)
    requires Ideal(h) && TopLevelUnordered(pol) && WellNamed(a) && WellNamed(b) && Bracketless(path)
    ensures Contribution(a, path, pol, h, n) == Contribution(b, path, pol, h, n)
      <==> StreamedSame(GroupValues(a, n), GroupValues(b, n), path + "." + n, pol, h)
  {
    var na, nb := Names(a.children), Names(b.children);
    var da, db := ChildDigests(a.children, path, pol, h), ChildDigests(b.children, path, pol, h);
    ChildrenDecided(a, b, path, pol, h);
    PicksCorrespond(na, da, Vs(a.children), nb, db, Vs(b.children), n);
    ContributionOf(a, path, n, pol, h);
    ContributionOf(b, path, n, pol, h);
    if IgnoresOrder(pol, path + "." + n) {
      NodesUnique(a, n, path, pol, h);
      NodesUnique(b, n, path, pol, h);
      LooseGroupsAgree(Pick(na, da, n), Pick(nb, db, n), GroupValues(a, n), GroupValues(b, n), path + "." + n, pol, h);
    }
  }

  // ---- Whole documents ----

  // One property directly below the root, present or not.
  ghost predicate FieldAgrees(l: Value, r: Value, name: string, pol: Policies, k: Key)
    requires l.Record? && r.Record?
  {
    SameField(Field(l, k), Field(r, k), AppendPath(name, RenderKey(k)), pol)
  }

  lemma RootByFields(l: Value, r: Value, name: string, pol: Policies)
    requires l.Record? && r.Record?
    ensures SameRoot(l, r, name, pol)
      <==> (l.fields.Keys == r.fields.Keys && (forall k | k in l.fields :: FieldAgrees(l, r, name, pol, k)))
  {
  }

  // Attributes and text are single texts, which are compared by equality.
  lemma HeadAgrees(f: map<Key, Value>, a: Element, g: map<Key, Value>, b: Element, name: string, pol: Policies, k: Key)
    requires FieldMap(f, a) && FieldMap(g, b) && !k.Child? && k in f && k in g
    ensures FieldAgrees(Record(f), Record(g), name, pol, k) <==> f[k] == g[k]
  {
    assert f[k].Text? && g[k].Text? by {
      if k.Attribute? { assert k == Attribute(k.name); }
    }
    SingleFieldVerdict(f[k], g[k], AppendPath(name, RenderKey(k)), pol);
  }

  lemma RootByParts(f: map<Key, Value>, a: Element, g: map<Key, Value>, b: Element, agree: string -> bool,
                    name: string, pol: Policies)
    requires FieldMap(f, a) && FieldMap(g, b)
    requires forall n | n in Names(a.children) && n in Names(b.children) ::
      agree(n) <==> FieldAgrees(Record(f), Record(g), name, pol, Child(n))
    ensures SameRoot(Record(f), Record(g), name, pol)
      <==> (SameAttributesAndText(a, b)
        && (forall n :: n in Names(a.children) <==> n in Names(b.children))
        && (forall n | n in Names(a.children) :: agree(n)))
  {
    HeadsOfMaps(f, a, g, b);
    var same := (k: Key) => FieldAgrees(Record(f), Record(g), name, pol, k);
    forall k: Key | !k.Child? && k in f && k in g ensures same(k) <==> f[k] == g[k] {
      HeadAgrees(f, a, g, b, name, pol, k);
    }
    ByParts(f, g, same, SameHeads(f, g), Names(a.children), Names(b.children), agree);
    RootByFields(Record(f), Record(g), name, pol);
  }

  lemma CollectedFieldAgrees(l: Value, r: Value, left: seq<Value>, right: seq<Value>, name: string, pol: Policies, n: string)
    requires l.Record? && r.Record? && Child(n) in l.fields && Child(n) in r.fields && name != ""
    requires l.fields[Child(n)] == Collect(left) && r.fields[Child(n)] == Collect(right)
    requires AllItems(left) && AllItems(right) && left != [] && right != []
    ensures FieldAgrees(l, r, name, pol, Child(n)) <==> SameCollection(left, right, name + "." + n, pol)
  {
    CollectIsInjective(left, right);
    CollectIsInjective(right, left);
    assert AppendPath(name, RenderKey(Child(n))) == name + "." + n;
  }

  // The root elements agree: heads, names of children, and every group as `same` says.
  ghost predicate RootGroups(a: Element, b: Element, same: (seq<Value>, seq<Value>, string) -> bool)
  {
    && SameAttributesAndText(a, b)
    && (forall n :: n in Names(a.children) <==> n in Names(b.children))
    && (forall n | n in Names(a.children) :: same(GroupValues(a, n), GroupValues(b, n), n))
  }

  ghost function Recursively(name: string, pol: Policies): (seq<Value>, seq<Value>, string) -> bool
  {
    (l, r, n) => SameCollection(l, r, name + "." + n, pol)
  }

  ghost function Streaming(name: string, pol: Policies, h: Hasher): (seq<Value>, seq<Value>, string) -> bool
  {
    (l, r, n) => StreamedSame(l, r, name + "." + n, pol, h)
  }

  lemma RecursiveRoot(a: Element, b: Element, pol: Policies)
    requires a.name != "" && !IsScalar(a) && !IsScalar(b)
    ensures SameRoot(V(a), V(b), a.name, pol) <==> RootGroups(a, b, Recursively(a.name, pol))
  {
    var f := FieldMapOf(a);
    var g := FieldMapOf(b);
    var same := Recursively(a.name, pol);
    var agree := (n: string) => same(GroupValues(a, n), GroupValues(b, n), n);
    forall n | n in Names(a.children) && n in Names(b.children)
      ensures agree(n) <==> FieldAgrees(Record(f), Record(g), a.name, pol, Child(n))
    {
      GroupField(a, n);
      GroupField(b, n);
      CollectedFieldAgrees(Record(f), Record(g), GroupValues(a, n), GroupValues(b, n), a.name, pol, n);
    }
    RootByParts(f, a, g, b, agree, a.name, pol);
  }

  lemma StreamedRoot(a: Element, b: Element, pol: Policies, h: Hasher)
    requires Ideal(h) && TopLevelUnordered(pol) && WellNamed(a) && WellNamed(b)
    requires a.name == b.name && !IsScalar(a) && !IsScalar(b)
    ensures DigestOf(a, a.name, pol, h) == DigestOf(b, b.name, pol, h) <==> RootGroups(a, b, Streaming(a.name, pol, h))
  {
    DigestsEqual(a, a.name, b, b.name, pol, h);
    HeadsAgree(a, b, h);
    forall n
      ensures Contribution(a, a.name, pol, h, n) == Contribution(b, b.name, pol, h, n)
        <==> StreamedSame(GroupValues(a, n), GroupValues(b, n), a.name + "." + n, pol, h)
    {
      GroupDecided(a, b, a.name, n, pol, h);
    }
  }

  ghost predicate SmallSame(a: Element, b: Element, pol: Policies)
  {
    CompareXml(Document(a.name, ParserValue(a)), Document(b.name, ParserValue(b)), pol) == {}
  }

  ghost predicate LargeSame(a: Element, b: Element, pol: Policies, h: Hasher)
  {
    DocumentOf(a, Sha(pol, h)).digest == DocumentOf(b, Sha(pol, h)).digest
  }

  lemma SmallVerdict(a: Element, b: Element, pol: Policies)
    requires TopLevelUnordered(pol) && WellNamed(a) && WellNamed(b)
    ensures SmallSame(a, b, pol) <==> (a.name == b.name && SameRoot(V(a), V(b), a.name, pol))
  {
    ParserValueIsParsed(a);
    ParserValueIsParsed(b);
    CompareXmlVerdict(a.name, ParserValue(a), b.name, ParserValue(b), pol);
  }

  // Names differ, or one root is a bare text: there is nothing to disagree about.
  lemma SimpleRootsAgree(a: Element, b: Element, pol: Policies, h: Hasher)
    requires Ideal(h) && TopLevelUnordered(pol) && WellNamed(a) && WellNamed(b)
    requires a.name != b.name || IsScalar(a) || IsScalar(b)
    ensures LargeSame(a, b, pol, h) <==> SmallSame(a, b, pol)
  {
    DigestsEqual(a, a.name, b, b.name, pol, h);
    SmallVerdict(a, b, pol);
    if a.name == b.name {
      ScalarsDecided(a, a.name, b, b.name, pol, h);
      assert V(a).Text? || V(b).Text?;
    }
  }

  lemma RootVerdicts(a: Element, b: Element, pol: Policies, h: Hasher)
    requires Ideal(h) && TopLevelUnordered(pol) && WellNamed(a) && WellNamed(b)
    requires a.name == b.name && !IsScalar(a) && !IsScalar(b)
    ensures LargeSame(a, b, pol, h) <==> RootGroups(a, b, Streaming(a.name, pol, h))
    ensures SmallSame(a, b, pol) <==> RootGroups(a, b, Recursively(a.name, pol))
  {
    StreamedRoot(a, b, pol, h);
    RecursiveRoot(a, b, pol);
    SmallVerdict(a, b, pol);
  }

  // In every order-insensitive collection of the document the two comparisons agree on
  // whether the items can be told apart.
  ghost predicate SameTests(e: Element, pol: Policies, h: Hasher)
  {
    forall n | n in Names(e.children) && IgnoresOrder(pol, e.name + "." + n) ::
      SameTest(GroupValues(e, n), e.name + "." + n, pol, h)
  }

  lemma SameGroupVerdict(left: seq<Value>, right: seq<Value>, path: string, pol: Policies, h: Hasher)
    requires IgnoresOrder(pol, path) ==> SameTest(left, path, pol, h)
    ensures StreamedSame(left, right, path, pol, h) <==> SameCollection(left, right, path, pol)
  {
    if IgnoresOrder(pol, path) { LooseCollections(left, right, path, pol, h); }
  }

  // The small-file verdict and the large-file verdict are the same verdict.
  lemma LargeAgreesWithSmall(a: Element, b: Element, pol: Policies, h: Hasher)
    requires Ideal(h) && TopLevelUnordered(pol) && WellNamed(a) && WellNamed(b)
    requires SameTests(a, pol, h)
    ensures LargeSame(a, b, pol, h) <==> SmallSame(a, b, pol)
  {
    if a.name != b.name || IsScalar(a) || IsScalar(b) {
      SimpleRootsAgree(a, b, pol, h);
    } else {
      RootVerdicts(a, b, pol, h);
      forall n | n in Names(a.children)
        ensures Streaming(a.name, pol, h)(GroupValues(a, n), GroupValues(b, n), n)
          <==> Recursively(a.name, pol)(GroupValues(a, n), GroupValues(b, n), n)
      {
        SameGroupVerdict(GroupValues(a, n), GroupValues(b, n), a.name + "." + n, pol, h);
      }
    }
  }
}
