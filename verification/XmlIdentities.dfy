// The identity of a collection item in both XML comparisons: the recursive one joins the
// identity values themselves, the streaming one replaces a long value by its digest.
module XmlIdentities {
  import opened Options
  import opened StringKit
  import opened XmlSemantics
  import opened XmlDiff
  import opened XmlVerdict
  import opened XmlTree
  import opened LargeXml
  import opened XmlAgreement

  // ---- Identities of one element ----

  // The identity values of an element: its single scalar children under the given names.
  function IdTexts(e: Element, keys: seq<string>): seq<(string, string)>
  {
    if keys == [] then []
    else
      var group, rest := Pick(Names(e.children), e.children, keys[0]), IdTexts(e, keys[1..]);
      if |group| == 1 && IsScalar(group[0]) then [(keys[0], group[0].text)] + rest else rest
  }

  lemma PickOfVs(e: Element, n: string)
    ensures var group := Pick(Names(e.children), e.children, n);
      Pick(Names(e.children), Vs(e.children), n) == Vs(group)
  {
  }

  lemma SingleScalarField(e: Element, n: string)
    ensures var group := Pick(Names(e.children), e.children, n);
      (V(e).Record? && Child(n) in V(e).fields && V(e).fields[Child(n)].Text?) <==> (|group| == 1 && IsScalar(group[0]))
    ensures var group := Pick(Names(e.children), e.children, n);
      |group| == 1 && IsScalar(group[0]) ==> V(e).fields[Child(n)].text == group[0].text
  {
    PickOfVs(e, n);
    var group := Pick(Names(e.children), e.children, n);
    if n in Names(e.children) {
      GroupField(e, n);
    } else if !IsScalar(e) {
      FieldsOfValue(e, Child(n));
      ChildKeys(e, n);
    }
  }

  lemma {:induction false} RecursiveIdentity(e: Element, keys: seq<string>)
    ensures IdentityPairs(V(e), keys) == IdTexts(e, keys)
  {
    if keys != [] {
      SingleScalarField(e, keys[0]);
      RecursiveIdentity(e, keys[1..]);
    }
  }

  // The digest that stands for a long identity value.
  function LongToken(h: Hasher, key: string, text: string): string
  {
    h.node([Header(key, map[], h.text(text))])
  }

  function Token(h: Hasher, key: string, text: string): string
  {
    if |text| < PREVIEW_LENGTH then text else LongToken(h, key, text)
  }

  function Tokens(h: Hasher, pairs: seq<(string, string)>): (r: seq<(string, string)>)
    ensures |r| == |pairs|
    ensures forall i | 0 <= i < |pairs| :: r[i] == (pairs[i].0, Token(h, pairs[i].0, pairs[i].1))
  {
    seq(|pairs|, i requires 0 <= i < |pairs| => (pairs[i].0, Token(h, pairs[i].0, pairs[i].1)))
  }

  lemma ScalarSummary(e: Element, path: string, pol: Policies, h: Hasher)
    ensures var node := Summary(e, path, Sha(pol, h));
      && (node.scalar <==> IsScalar(e))
      && (node.scalar ==> IdentityToken(node) == Token(h, e.name, e.text))
  {
    FrameOfElement(e, path, pol, h);
    var f := FrameOf(e, path, Sha(pol, h));
    if IsScalar(e) {
      assert f.children == [];
      assert GroupUpdates(Sort(Keys(f.children)), f, pol) == [];
      assert Updates(f, pol, h) == [Header(e.name, map[], h.text(e.text))];
    }
  }

  lemma SingleScalarNode(e: Element, path: string, n: string, pol: Policies, h: Hasher)
    ensures var values := Get(FrameOf(e, path, Sha(pol, h)).children, n);
      var group := Pick(Names(e.children), e.children, n);
      && ((|values| == 1 && values[0].scalar) <==> (|group| == 1 && IsScalar(group[0])))
      && (|values| == 1 && values[0].scalar ==> IdentityToken(values[0]) == Token(h, n, group[0].text))
  {
    GroupOfFrame(e, path, pol, h, n);
    var group := Pick(Names(e.children), e.children, n);
    var nodes := Pick(Names(e.children), ChildNodes(e, path, pol, h), n);
    if |group| == 1 {
      assert nodes[0] == Summary(group[0], path + "." + n, Sha(pol, h));
      ScalarSummary(group[0], path + "." + n, pol, h);
    }
  }

  lemma TokensOfCons(h: Hasher, p: (string, string), rest: seq<(string, string)>)
    ensures Tokens(h, [p] + rest) == [(p.0, Token(h, p.0, p.1))] + Tokens(h, rest)
  {
  }

  lemma {:induction false} StreamedIdentity(e: Element, path: string, keys: seq<string>, pol: Policies, h: Hasher)
    ensures IdentityTokens(FrameOf(e, path, Sha(pol, h)).children, keys) == Tokens(h, IdTexts(e, keys))
  {
    if keys != [] {
      SingleScalarNode(e, path, keys[0], pol, h);
      StreamedIdentity(e, path, keys[1..], pol, h);
      var group := Pick(Names(e.children), e.children, keys[0]);
      if |group| == 1 { TokensOfCons(h, (keys[0], group[0].text), IdTexts(e, keys[1..])); }
    }
  }

  // ---- Joined identities ----

  ghost predicate PlainPairs(ps: seq<(string, string)>)
  {
    forall i | 0 <= i < |ps| :: PlainKey(ps[i].0) && '|' !in ps[i].1
  }

  lemma SplitAtFirst(a: string, c: char, x: string, b: string, y: string)
    requires c !in a && c !in b && a + [c] + x == b + [c] + y
    ensures a == b && x == y
  {
    var s := a + [c] + x;
    assert s[|a|] == c && s[|b|] == c;
    assert forall i | 0 <= i < |a| :: s[i] == a[i];
    assert forall i | 0 <= i < |b| :: s[i] == b[i];
    assert a == s[..|a|] && b == s[..|b|];
    assert x == s[|a| + 1..] && y == s[|b| + 1..];
  }

  lemma {:induction false} JoinIsInjective(ps: seq<(string, string)>, qs: seq<(string, string)>)
    requires ps != [] && qs != [] && PlainPairs(ps) && PlainPairs(qs)
    requires JoinPairs(ps) == JoinPairs(qs)
    ensures ps == qs
    decreases |ps|
  {
    var p, q := ps[0], qs[0];
    var px := if |ps| == 1 then p.1 else p.1 + "|" + JoinPairs(ps[1..]);
    var qx := if |qs| == 1 then q.1 else q.1 + "|" + JoinPairs(qs[1..]);
    assert JoinPairs(ps) == p.0 + ['='] + px;
    assert JoinPairs(qs) == q.0 + ['='] + qx;
    SplitAtFirst(p.0, '=', px, q.0, qx);
    assert |ps| > 1 ==> px[|p.1|] == '|';
    assert |qs| > 1 ==> qx[|q.1|] == '|';
    if |ps| > 1 && |qs| > 1 {
      assert px == p.1 + ['|'] + JoinPairs(ps[1..]) && qx == q.1 + ['|'] + JoinPairs(qs[1..]);
      SplitAtFirst(p.1, '|', JoinPairs(ps[1..]), q.1, JoinPairs(qs[1..]));
      JoinIsInjective(ps[1..], qs[1..]);
      assert ps == [p] + ps[1..] && qs == [q] + qs[1..];
    }
  }

  // ---- Identities within one collection ----

  ghost predicate AllShort(es: seq<Element>, keys: seq<string>)
  {
    forall i, p | 0 <= i < |es| && p in IdTexts(es[i], keys) :: |p.1| < PREVIEW_LENGTH
  }

  ghost predicate Unmistakable(es: seq<Element>, keys: seq<string>, h: Hasher)
  {
    && (|keys| > 1 ==> forall i, p | 0 <= i < |es| && p in IdTexts(es[i], keys) :: '|' !in p.1)
    && (forall i, j, p, q | 0 <= i < |es| && 0 <= j < |es| && p in IdTexts(es[i], keys) && q in IdTexts(es[j], keys)
          && p.0 == q.0 && |p.1| < PREVIEW_LENGTH <= |q.1| :: p.1 != LongToken(h, q.0, q.1))
  }

  // Identity values are shorter than a preview; or else none contains the separator and
  // none is itself the digest of another.
  ghost predicate PlainIdentities(es: seq<Element>, keys: seq<string>, h: Hasher)
  {
    AllShort(es, keys) || Unmistakable(es, keys, h)
  }

  lemma {:induction false} IdTextsKeys(e: Element, keys: seq<string>)
    ensures forall p | p in IdTexts(e, keys) :: p.0 in keys
    ensures |IdTexts(e, keys)| <= |keys|
  {
    if keys != [] { IdTextsKeys(e, keys[1..]); }
  }

  lemma SingleJoin(p: (string, string), q: (string, string))
    requires p.0 == q.0
    ensures JoinPairs([p]) == JoinPairs([q]) <==> p == q
  {
    var k := p.0 + "=";
    assert p.1 == (k + p.1)[|k|..] && q.1 == (k + q.1)[|k|..];
  }

  lemma TokensAreShortTexts(es: seq<Element>, keys: seq<string>, h: Hasher, i: nat)
    requires AllShort(es, keys) && i < |es|
    ensures Tokens(h, IdTexts(es[i], keys)) == IdTexts(es[i], keys)
  {
    var ps := IdTexts(es[i], keys);
    forall k | 0 <= k < |ps| ensures Tokens(h, ps)[k] == ps[k] {
      assert ps[k] in ps;
    }
  }

  lemma TokensDecide(es: seq<Element>, keys: seq<string>, h: Hasher, i: nat, j: nat)
    requires Ideal(h) && Unmistakable(es, keys, h) && i < |es| && j < |es|
    ensures Tokens(h, IdTexts(es[i], keys)) == Tokens(h, IdTexts(es[j], keys)) <==> IdTexts(es[i], keys) == IdTexts(es[j], keys)
  {
    var ps, qs := IdTexts(es[i], keys), IdTexts(es[j], keys);
    var us, vs := Tokens(h, ps), Tokens(h, qs);
    if us == vs {
      forall k | 0 <= k < |ps| ensures ps[k] == qs[k] {
        assert us[k] == vs[k] && ps[k] in ps && qs[k] in qs;
        var p, q := ps[k], qs[k];
        if |p.1| >= PREVIEW_LENGTH && |q.1| >= PREVIEW_LENGTH {
          InjectiveOn(h, [Header(p.0, map[], h.text(p.1))], [Header(q.0, map[], h.text(q.1))]);
          assert [Header(p.0, map[], h.text(p.1))][0] == [Header(q.0, map[], h.text(q.1))][0];
        }
      }
    }
  }

  lemma SamePairsSameJoin(ps: seq<(string, string)>, qs: seq<(string, string)>, keys: seq<string>)
    requires (forall p | p in ps + qs :: p.0 in keys) && |ps| <= |keys| && |qs| <= |keys|
    requires |keys| > 1 ==> (forall k | k in keys :: PlainKey(k)) && (forall p | p in ps + qs :: '|' !in p.1)
    ensures IdentityOf(ps, false) == IdentityOf(qs, false) <==> ps == qs
  {
    if ps != [] && qs != [] && JoinPairs(ps) == JoinPairs(qs) {
      if |keys| > 1 {
        assert forall k | 0 <= k < |ps| :: ps[k] in ps + qs;
        assert forall k | 0 <= k < |qs| :: qs[k] in ps + qs;
        JoinIsInjective(ps, qs);
      } else {
        assert ps[0] in ps + qs && qs[0] in ps + qs;
        assert ps == [ps[0]] && qs == [qs[0]];
        SingleJoin(ps[0], qs[0]);
      }
    }
  }

  // The streamed identities of a collection coincide exactly where the parsed ones do.
  lemma IdentitiesCoincide(es: seq<Element>, keys: seq<string>, h: Hasher, i: nat, j: nat)
    requires Ideal(h) && PlainIdentities(es, keys, h) && i < |es| && j < |es|
    requires |keys| > 1 ==> forall k | k in keys :: PlainKey(k)
    ensures IdentityOf(Tokens(h, IdTexts(es[i], keys)), false) == IdentityOf(Tokens(h, IdTexts(es[j], keys)), false)
      <==> IdentityOf(IdTexts(es[i], keys), false) == IdentityOf(IdTexts(es[j], keys), false)
  {
    if AllShort(es, keys) {
      TokensAreShortTexts(es, keys, h, i);
      TokensAreShortTexts(es, keys, h, j);
    } else {
      var ps, qs := IdTexts(es[i], keys), IdTexts(es[j], keys);
      IdTextsKeys(es[i], keys);
      IdTextsKeys(es[j], keys);
      TokensDecide(es, keys, h, i, j);
      TokensArePlain(es, keys, h, i);
      TokensArePlain(es, keys, h, j);
      SamePairsSameJoin(ps, qs, keys);
      SamePairsSameJoin(Tokens(h, ps), Tokens(h, qs), keys);
    }
  }

  lemma TokensArePlain(es: seq<Element>, keys: seq<string>, h: Hasher, i: nat)
    requires Ideal(h) && Unmistakable(es, keys, h) && i < |es|
    ensures forall u | u in Tokens(h, IdTexts(es[i], keys)) :: u.0 in keys && (|keys| > 1 ==> '|' !in u.1)
  {
    var ps := IdTexts(es[i], keys);
    IdTextsKeys(es[i], keys);
    forall k | 0 <= k < |ps|
      ensures Tokens(h, ps)[k].0 in keys && (|keys| > 1 ==> '|' !in Tokens(h, ps)[k].1)
    {
      assert ps[k] in ps;
    }
  }

  // ---- Telling the items of a collection apart ----

  // The siblings called `n` in document order, as elements, as values and as summaries.
  function GroupOf(e: Element, n: string): seq<Element>
  {
    Pick(Names(e.children), e.children, n)
  }

  function GroupValues(e: Element, n: string): seq<Value>
  {
    Pick(Names(e.children), Vs(e.children), n)
  }

  function GroupNodes(e: Element, n: string, path: string, pol: Policies, h: Hasher): seq<NodeSummary>
  {
    Pick(Names(e.children), ChildNodes(e, path, pol, h), n)
  }

  // The identities the streaming comparison gives to the items of a collection.
  function StreamedIds(items: seq<Value>, keys: seq<string>, h: Hasher): (ids: seq<Option<string>>)
    ensures |ids| == |items|
  {
    seq(|items|, i requires 0 <= i < |items| => IdentityOf(Tokens(h, IdentityPairs(items[i], keys)), false))
  }

  lemma NodeIdentity(e: Element, path: string, pol: Policies, h: Hasher)
    requires FindPolicy(pol, path).Some?
    ensures Summary(e, path, Sha(pol, h)).identity
      == IdentityOf(Tokens(h, IdentityPairs(V(e), IdentityKeysAt(pol, path))), false)
  {
    FrameOfElement(e, path, pol, h);
    StreamedIdentity(e, path, IdentityKeysAt(pol, path), pol, h);
    RecursiveIdentity(e, IdentityKeysAt(pol, path));
  }

  lemma SameDistinctness<T>(nodes: seq<NodeSummary>, ids: seq<Option<T>>)
    requires |nodes| == |ids|
    requires forall i | 0 <= i < |ids| :: nodes[i].identity.Some? <==> ids[i].Some?
    requires forall i, j | 0 <= i < |ids| && 0 <= j < |ids| :: nodes[i].identity == nodes[j].identity <==> ids[i] == ids[j]
    ensures UniqueIdentities(nodes)
      <==> (forall i | 0 <= i < |ids| :: ids[i].Some?) && (forall i, j | 0 <= i < j < |ids| :: ids[i] != ids[j])
  {
  }

  lemma NodesUnique(e: Element, n: string, path: string, pol: Policies, h: Hasher)
    requires FindPolicy(pol, path + "." + n).Some?
    ensures UniqueIdentities(GroupNodes(e, n, path, pol, h))
      <==> AllUnique(StreamedIds(GroupValues(e, n), IdentityKeysAt(pol, path + "." + n), h))
  {
    var q := path + "." + n;
    var es, nodes := GroupOf(e, n), GroupNodes(e, n, path, pol, h);
    var ids := StreamedIds(GroupValues(e, n), IdentityKeysAt(pol, q), h);
    forall i | 0 <= i < |es| ensures nodes[i].identity == ids[i] {
      NodeIdentity(es[i], q, pol, h);
    }
    SameDistinctness(nodes, ids);
  }

  lemma ValueIdentity(e: Element, path: string, pol: Policies)
    requires FindPolicy(pol, path).Some?
    ensures FindIdentity(V(e), IdentityKeysAt(pol, path), FirstKeyOnly(pol, path))
      == IdentityOf(IdentityPairs(V(e), IdentityKeysAt(pol, path)), false)
  {
  }

  // Both comparisons reach the same answer to: can the items be told apart?
  ghost predicate SameTest(items: seq<Value>, path: string, pol: Policies, h: Hasher)
  {
    AllUnique(StreamedIds(items, IdentityKeysAt(pol, path), h)) <==> AllUnique(Identities(items, path, pol))
  }

  lemma JoinedKeysArePlain(pol: Policies, path: string)
    requires TopLevelUnordered(pol) && FindPolicy(pol, path).Some?
    ensures var keys := IdentityKeysAt(pol, path); |keys| > 1 ==> forall k | k in keys :: PlainKey(k)
  {
    LookupKeepsShape(pol.collections, StripBrackets(path)[|pol.root + "."|..]);
  }

  // Plain identities are enough for that.
  lemma PlainIdentitiesSuffice(e: Element, n: string, path: string, pol: Policies, h: Hasher)
    requires Ideal(h) && TopLevelUnordered(pol) && FindPolicy(pol, path).Some?
    requires PlainIdentities(GroupOf(e, n), IdentityKeysAt(pol, path), h)
    ensures SameTest(GroupValues(e, n), path, pol, h)
  {
    var keys := IdentityKeysAt(pol, path);
    var es, values := GroupOf(e, n), GroupValues(e, n);
    var streamed, ids := StreamedIds(values, keys, h), Identities(values, path, pol);
    JoinedKeysArePlain(pol, path);
    forall i | 0 <= i < |es|
      ensures streamed[i] == IdentityOf(Tokens(h, IdTexts(es[i], keys)), false)
      ensures ids[i] == IdentityOf(IdTexts(es[i], keys), false)
    {
      RecursiveIdentity(es[i], keys);
      ValueIdentity(es[i], path, pol);
    }
    forall i, j | 0 <= i < |es| && 0 <= j < |es| ensures streamed[i] == streamed[j] <==> ids[i] == ids[j] {
      IdentitiesCoincide(es, keys, h, i, j);
    }
  }

  // ---- Uniqueness does not depend on the order of the items ----

  lemma CountedTwice<T>(s: seq<T>, i: nat, j: nat)
    requires i < j < |s| && s[i] == s[j]
    ensures multiset(s)[s[i]] >= 2
  {
    assert s == s[..j] + s[j..];
    assert s[..j][i] in multiset(s[..j]) && s[j..][0] in multiset(s[j..]);
  }

  ghost predicate Follows<T>(left: seq<T>, leftIds: seq<Option<string>>, right: seq<T>, rightIds: seq<Option<string>>)
  {
    && |left| == |leftIds| && |right| == |rightIds|
    && (forall i, j | 0 <= i < |left| && 0 <= j < |right| && left[i] == right[j] :: leftIds[i] == rightIds[j])
  }

  lemma UniqueAlongPermutation<T>(left: seq<T>, leftIds: seq<Option<string>>, right: seq<T>, rightIds: seq<Option<string>>)
    requires multiset(left) == multiset(right) && AllUnique(leftIds)
    requires Follows(left, leftIds, right, rightIds) && Follows(left, leftIds, left, leftIds)
    ensures AllUnique(rightIds)
  {
    forall j | 0 <= j < |right| ensures rightIds[j].Some? {
      var a := Occurrence(left, right[j], multiset(right));
    }
    forall i, j | 0 <= i < j < |right| ensures rightIds[i] != rightIds[j] {
      if rightIds[i] == rightIds[j] {
        var a := Occurrence(left, right[i], multiset(right));
        var b := Occurrence(left, right[j], multiset(right));
        assert a == b;
        CountedTwice(right, i, j);
        DistinctCounts(left, right[i]);
      }
    }
  }

  lemma UniquenessIgnoresOrder(left: seq<Value>, right: seq<Value>, path: string, pol: Policies, keys: seq<string>, h: Hasher)
    requires multiset(left) == multiset(right)
    ensures AllUnique(Identities(left, path, pol)) <==> AllUnique(Identities(right, path, pol))
    ensures AllUnique(StreamedIds(left, keys, h)) <==> AllUnique(StreamedIds(right, keys, h))
  {
    var ls, rs := StreamedIds(left, keys, h), StreamedIds(right, keys, h);
    var li, ri := Identities(left, path, pol), Identities(right, path, pol);
    BothWays(left, ls, right, rs);
    BothWays(left, li, right, ri);
  }

  lemma BothWays(left: seq<Value>, leftIds: seq<Option<string>>, right: seq<Value>, rightIds: seq<Option<string>>)
    requires multiset(left) == multiset(right)
    requires Follows(left, leftIds, right, rightIds) && Follows(right, rightIds, left, leftIds)
    requires Follows(left, leftIds, left, leftIds) && Follows(right, rightIds, right, rightIds)
    ensures AllUnique(leftIds) <==> AllUnique(rightIds)
  {
    if AllUnique(leftIds) { UniqueAlongPermutation(left, leftIds, right, rightIds); }
    if AllUnique(rightIds) { UniqueAlongPermutation(right, rightIds, left, leftIds); }
  }
}
