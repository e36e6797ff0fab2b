// What each kind of change of src/metadata/xml-diff.ts means, said of the two values that are
// compared: a comparison reports exactly what is to be said of the pairs it meets.
module XmlKinds {
  import opened Options
  import opened StringKit
  import opened XmlSemantics
  import opened XmlDiff
  import opened XmlVerdict
  import opened XmlMirror

  // Two values that are compared at a path.
  datatype Pair = Pair(left: Value, right: Value, path: string)

  // Compared item by item: one side is a list, or a policy says that this is a collection.
  predicate AsLists(q: Pair, pol: Policies)
  {
    q.left.Array? || q.right.Array? || IsKeyedCollection(q.path, pol)
  }

  function LeftIds(q: Pair, pol: Policies): seq<Option<string>> { Identities(AsCollection(q.left), q.path, pol) }

  function RightIds(q: Pair, pol: Policies): seq<Option<string>> { Identities(AsCollection(q.right), q.path, pol) }

  // The same distinct identities, in another order, where the order counts.
  ghost predicate OtherOrder(q: Pair, pol: Policies)
  {
    && AsLists(q, pol) && !IgnoresOrder(pol, q.path)
    && AllUnique(LeftIds(q, pol)) && AllUnique(RightIds(q, pol))
    && multiset(LeftIds(q, pol)) == multiset(RightIds(q, pol)) && LeftIds(q, pol) != RightIds(q, pol)
  }

  // What is to be said of one pair.
  ghost predicate Tells(q: Pair, pol: Policies, c: Change)
  {
    match c.kind
    case ADDED => c.path == q.path && !AsLists(q, pol) && q.left.Undefined? && !q.right.Undefined?
    case REMOVED => c.path == q.path && !AsLists(q, pol) && !q.left.Undefined? && q.right.Undefined?
    case MODIFIED =>
      && c.path == q.path && !AsLists(q, pol)
      && ((q.left.Text? && q.right.Text? && q.left.text != q.right.text)
          || (q.left.Text? && q.right.Record?) || (q.left.Record? && q.right.Text?))
    case REORDERED => c.path == q.path + ".$order" && OtherOrder(q, pol)
  }

  // ---- What an item is identified by ----

  // The item has a child of this name that holds nothing but text.
  predicate HasTextChild(v: Value, key: string)
  {
    v.Record? && Child(key) in v.fields && v.fields[Child(key)].Text?
  }

  lemma {:induction false} FirstPair(v: Value, keys: seq<string>, i: nat)
    requires i < |keys| && HasTextChild(v, keys[i]) && forall k | 0 <= k < i :: !HasTextChild(v, keys[k])
    ensures IdentityPairs(v, keys) != [] && IdentityPairs(v, keys)[0] == (keys[i], v.fields[Child(keys[i])].text)
  {
    if i > 0 {
      assert forall k | 0 <= k < i - 1 :: keys[1..][k] == keys[k + 1];
      FirstPair(v, keys[1..], i - 1);
    }
  }

  lemma {:induction false} NoPair(v: Value, keys: seq<string>)
    requires forall k | 0 <= k < |keys| :: !HasTextChild(v, keys[k])
    ensures IdentityPairs(v, keys) == []
  {
    if keys != [] {
      assert forall k | 0 <= k < |keys[1..]| :: keys[1..][k] == keys[k + 1];
      NoPair(v, keys[1..]);
    }
  }

  function IdentityAt(v: Value, path: string, pol: Policies): Option<string>
  {
    FindIdentity(v, IdentityKeysAt(pol, path), FirstKeyOnly(pol, path))
  }

  // Without registered policies an item is identified by the first of the generic names it has
  // a text for, with them by nothing where none applies.
  lemma IdentityWithoutPolicy(v: Value, path: string, pol: Policies)
    requires FindPolicy(pol, path).None?
    ensures pol.registered ==> IdentityAt(v, path, pol).None?
    ensures !pol.registered && (forall k | 0 <= k < |GENERIC_KEYS| :: !HasTextChild(v, GENERIC_KEYS[k])) ==> IdentityAt(v, path, pol).None?
    ensures !pol.registered ==> forall i: nat | FirstGeneric(v, i) ::
      IdentityAt(v, path, pol) == Some(GENERIC_KEYS[i] + "=" + v.fields[Child(GENERIC_KEYS[i])].text)
  {
    if !pol.registered && forall k | 0 <= k < |GENERIC_KEYS| :: !HasTextChild(v, GENERIC_KEYS[k]) { NoPair(v, GENERIC_KEYS); }
    forall i: nat | !pol.registered && FirstGeneric(v, i)
      ensures IdentityAt(v, path, pol) == Some(GENERIC_KEYS[i] + "=" + v.fields[Child(GENERIC_KEYS[i])].text)
    {
      FirstPair(v, GENERIC_KEYS, i);
    }
  }

  predicate FirstGeneric(v: Value, i: nat)
  {
    i < |GENERIC_KEYS| && HasTextChild(v, GENERIC_KEYS[i]) && forall k | 0 <= k < i :: !HasTextChild(v, GENERIC_KEYS[k])
  }

  // Where a policy with one key applies, an item is identified by its text for that key.
  lemma IdentityByPolicy(v: Value, path: string, pol: Policies, key: string)
    requires FindPolicy(pol, path).Some? && FindPolicy(pol, path).value.identityKeys == [key]
    ensures IdentityAt(v, path, pol)
      == if HasTextChild(v, key) then Some(key + "=" + v.fields[Child(key)].text) else None
  {
    assert [key][1..] == [];
    if HasTextChild(v, key) { FirstPair(v, [key], 0); } else { NoPair(v, [key]); }
    assert IdentityPairs(v, [key]) == if HasTextChild(v, key) then [(key, v.fields[Child(key)].text)] else [];
  }

  // ---- The pairs a comparison meets ----

  ghost predicate Meets(left: Value, right: Value, path: string, pol: Policies, q: Pair)
    decreases Height(left) + Height(right), if EndsWithBracket(path) then 0 else 2, 1
  {
    q == Pair(left, right, path)
    || (if left.Array? || right.Array? || IsKeyedCollection(path, pol) then
          CollectionHeight(left);
          CollectionHeight(right);
          MeetsItems(AsCollection(left), AsCollection(right), path, pol, q)
        else left.Record? && right.Record? && MeetsFields(left, right, path, pol, q))
  }

  ghost predicate MeetsFields(left: Value, right: Value, path: string, pol: Policies, q: Pair)
    requires left.Record? && right.Record?
    decreases Height(left) + Height(right), if EndsWithBracket(path) then 0 else 2, 0
  {
    FieldHeights(left);
    FieldHeights(right);
    exists k :: k in left.fields.Keys + right.fields.Keys
      && Meets(Field(left, k), Field(right, k), AppendPath(ObjectPath(left, right, path), RenderKey(k)), pol, q)
  }

  // Items are matched by identity if both sides have distinct ones, otherwise by position.
  ghost predicate MeetsItems(left: seq<Value>, right: seq<Value>, path: string, pol: Policies, q: Pair)
    decreases HeightAll(left) + HeightAll(right), 1
  {
    var leftIds, rightIds := Identities(left, path, pol), Identities(right, path, pol);
    AtHeights(left);
    AtHeights(right);
    ByIdentityHeights(left, leftIds);
    ByIdentityHeights(right, rightIds);
    if AllUnique(leftIds) && AllUnique(rightIds) then
      exists id :: Known(leftIds, rightIds, id)
        && Meets(ByIdentity(left, leftIds, id), ByIdentity(right, rightIds, id), ItemPath(path, id.value), pol, q)
    else
      exists i: nat :: i < Longer(left, right) && Meets(At(left, i), At(right, i), ItemPath(path, Decimal(i)), pol, q)
  }

  // ---- One pair ----

  lemma SameElementsSameCount<T>(a: seq<T>, b: seq<T>)
    requires forall i, j | 0 <= i < j < |a| :: a[i] != a[j]
    requires forall i, j | 0 <= i < j < |b| :: b[i] != b[j]
    ensures multiset(a) == multiset(b) <==> |a| == |b| && forall i | 0 <= i < |a| :: a[i] in b
  {
    if multiset(a) == multiset(b) {
      assert |multiset(a)| == |a| && |multiset(b)| == |b|;
      forall i | 0 <= i < |a| ensures a[i] in b { assert a[i] in multiset(a); }
    }
    if |a| == |b| && forall i | 0 <= i < |a| :: a[i] in b {
      AllFound(a, b);
      SameElementsOfDistinct(a, b);
    }
  }

  lemma ReorderedIsOtherOrder(q: Pair, pol: Policies)
    requires AsLists(q, pol) && AllUnique(LeftIds(q, pol)) && AllUnique(RightIds(q, pol))
    ensures Reordered(LeftIds(q, pol), RightIds(q, pol), q.path, pol) <==> OtherOrder(q, pol)
  {
    SameElementsSameCount(LeftIds(q, pol), RightIds(q, pol));
  }

  // ---- Whatever is reported is true of a pair that was met ----

  lemma {:induction false} ReportedOf(left: Value, right: Value, path: string, pol: Policies, c: Change) returns (q: Pair)
    requires c in DiffValue(left, right, path, pol)
    ensures Meets(left, right, path, pol, q) && Tells(q, pol, c)
    decreases Height(left) + Height(right), if EndsWithBracket(path) then 0 else 2, 1
  {
    q := Pair(left, right, path);
    if AsLists(q, pol) {
      CollectionHeight(left);
      CollectionHeight(right);
      if Tells(q, pol, c) { return; }
      q := ReportedOfItems(left, right, path, pol, c);
    } else if left.Record? && right.Record? {
      FieldHeights(left);
      FieldHeights(right);
      var objectPath := ObjectPath(left, right, path);
      var k :| k in left.fields.Keys + right.fields.Keys
        && c in DiffValue(Field(left, k), Field(right, k), AppendPath(objectPath, RenderKey(k)), pol);
      q := ReportedOf(Field(left, k), Field(right, k), AppendPath(objectPath, RenderKey(k)), pol, c);
      assert MeetsFields(left, right, path, pol, q);
    }
  }

  lemma {:induction false} ReportedOfItems(left: Value, right: Value, path: string, pol: Policies, c: Change) returns (q: Pair)
    requires AsLists(Pair(left, right, path), pol) && !Tells(Pair(left, right, path), pol, c)
    requires c in DiffArray(AsCollection(left), AsCollection(right), path, pol)
    ensures MeetsItems(AsCollection(left), AsCollection(right), path, pol, q) && Tells(q, pol, c)
    decreases HeightAll(AsCollection(left)) + HeightAll(AsCollection(right)), 1
  {
    var lefts, rights := AsCollection(left), AsCollection(right);
    var leftIds, rightIds := Identities(lefts, path, pol), Identities(rights, path, pol);
    if AllUnique(leftIds) && AllUnique(rightIds) {
      ReorderedIsOtherOrder(Pair(left, right, path), pol);
      InDiffByIdentity(lefts, rights, path, pol, c);
      ByIdentityHeights(lefts, leftIds);
      ByIdentityHeights(rights, rightIds);
      var id :| Known(leftIds, rightIds, id) && c in NamedDiff(lefts, leftIds, rights, rightIds, id, path, pol);
      q := ReportedOf(ByIdentity(lefts, leftIds, id), ByIdentity(rights, rightIds, id), ItemPath(path, id.value), pol, c);
    } else {
      InDiffByIndex(lefts, rights, path, pol, c);
      AtHeights(lefts);
      AtHeights(rights);
      var i: nat :| i < Longer(lefts, rights) && c in PairDiff(lefts, rights, i, path, pol);
      q := ReportedOf(At(lefts, i), At(rights, i), ItemPath(path, Decimal(i)), pol, c);
    }
  }

  // ---- Whatever is true of a pair that is met is reported ----

  // Of equal texts there is nothing to be said, even if they are compared as lists.
  lemma NothingOfEqualTexts(v: Value, path: string, pol: Policies, q: Pair, c: Change)
    requires (v.Undefined? || v.Text?) && Meets(v, v, path, pol, q)
    ensures !Tells(q, pol, c)
  {
    if q != Pair(v, v, path) {
      var items := AsCollection(v);
      assert MeetsItems(items, items, path, pol, q);
      if v.Text? {
        assert IdentityPairs(v, IdentityKeysAt(pol, path)) == [] by { TextHasNoIdentity(v, IdentityKeysAt(pol, path)); }
        assert Identities(items, path, pol)[0].None?;
        assert q == Pair(v, v, ItemPath(path, Decimal(0)));
      }
    }
  }

  lemma {:induction false} TextHasNoIdentity(v: Value, keys: seq<string>)
    requires v.Text?
    ensures IdentityPairs(v, keys) == []
  {
    if keys != [] { TextHasNoIdentity(v, keys[1..]); }
  }

  lemma HereIsReported(left: Value, right: Value, path: string, pol: Policies, c: Change)
    requires Tells(Pair(left, right, path), pol, c)
    ensures c in DiffValue(left, right, path, pol)
  {
    var here := Pair(left, right, path);
    if AsLists(here, pol) { ReorderedIsOtherOrder(here, pol); }
  }

  lemma {:induction false} MetIsReported(left: Value, right: Value, path: string, pol: Policies, q: Pair, c: Change)
    requires Meets(left, right, path, pol, q) && Tells(q, pol, c)
    ensures c in DiffValue(left, right, path, pol)
    decreases Height(left) + Height(right), if EndsWithBracket(path) then 0 else 2, 1
  {
    if left == right && (left.Undefined? || left.Text?) {
      NothingOfEqualTexts(left, path, pol, q, c);
    } else if q == Pair(left, right, path) {
      HereIsReported(left, right, path, pol, c);
    } else if AsLists(Pair(left, right, path), pol) {
      CollectionHeight(left);
      CollectionHeight(right);
      MetItemIsReported(AsCollection(left), AsCollection(right), path, pol, q, c);
    } else {
      MetFieldIsReported(left, right, path, pol, q, c);
    }
  }

  lemma {:induction false} MetFieldIsReported(left: Value, right: Value, path: string, pol: Policies, q: Pair, c: Change)
    requires left.Record? && right.Record? && MeetsFields(left, right, path, pol, q) && Tells(q, pol, c)
    ensures c in DiffFields(left, right, path, pol)
    decreases Height(left) + Height(right), if EndsWithBracket(path) then 0 else 2, 0
  {
    FieldHeights(left);
    FieldHeights(right);
    var objectPath := ObjectPath(left, right, path);
    var k :| k in left.fields.Keys + right.fields.Keys
      && Meets(Field(left, k), Field(right, k), AppendPath(objectPath, RenderKey(k)), pol, q);
    MetIsReported(Field(left, k), Field(right, k), AppendPath(objectPath, RenderKey(k)), pol, q, c);
  }

  lemma {:induction false} MetItemIsReported(left: seq<Value>, right: seq<Value>, path: string, pol: Policies, q: Pair, c: Change)
    requires MeetsItems(left, right, path, pol, q) && Tells(q, pol, c)
    ensures c in DiffArray(left, right, path, pol)
    decreases HeightAll(left) + HeightAll(right), 1
  {
    if AllUnique(Identities(left, path, pol)) && AllUnique(Identities(right, path, pol)) {
      MetByIdentity(left, right, path, pol, q, c);
    } else {
      MetByIndex(left, right, path, pol, q, c);
    }
  }

  lemma {:induction false} MetByIdentity(left: seq<Value>, right: seq<Value>, path: string, pol: Policies, q: Pair, c: Change)
    requires AllUnique(Identities(left, path, pol)) && AllUnique(Identities(right, path, pol))
    requires MeetsItems(left, right, path, pol, q) && Tells(q, pol, c)
    ensures c in DiffByIdentity(left, right, path, pol)
    decreases HeightAll(left) + HeightAll(right), 0, 2
  {
    var leftIds, rightIds := Identities(left, path, pol), Identities(right, path, pol);
    ByIdentityHeights(left, leftIds);
    ByIdentityHeights(right, rightIds);
    var id :| Known(leftIds, rightIds, id)
      && Meets(ByIdentity(left, leftIds, id), ByIdentity(right, rightIds, id), ItemPath(path, id.value), pol, q);
    MetIsReported(ByIdentity(left, leftIds, id), ByIdentity(right, rightIds, id), ItemPath(path, id.value), pol, q, c);
    InDiffByIdentity(left, right, path, pol, c);
    assert c in NamedDiff(left, leftIds, right, rightIds, id, path, pol);
  }

  lemma {:induction false} MetByIndex(left: seq<Value>, right: seq<Value>, path: string, pol: Policies, q: Pair, c: Change)
    requires !(AllUnique(Identities(left, path, pol)) && AllUnique(Identities(right, path, pol)))
    requires MeetsItems(left, right, path, pol, q) && Tells(q, pol, c)
    ensures c in DiffByIndex(left, right, path, pol)
    decreases HeightAll(left) + HeightAll(right), 0, 2
  {
    AtHeights(left);
    AtHeights(right);
    var i: nat :| i < Longer(left, right) && Meets(At(left, i), At(right, i), ItemPath(path, Decimal(i)), pol, q);
    MetIsReported(At(left, i), At(right, i), ItemPath(path, Decimal(i)), pol, q, c);
    InDiffByIndex(left, right, path, pol, c);
    assert c in PairDiff(left, right, i, path, pol);
  }

  // ---- The meaning of a report ----

  // A comparison reports a change exactly if it meets a pair of which that is to be said.
  lemma KindsExactly(left: Value, right: Value, path: string, pol: Policies, c: Change)
    ensures c in DiffValue(left, right, path, pol)
      <==> exists q :: Meets(left, right, path, pol, q) && Tells(q, pol, c)
  {
    if c in DiffValue(left, right, path, pol) {
      var q := ReportedOf(left, right, path, pol, c);
    }
    if exists q :: Meets(left, right, path, pol, q) && Tells(q, pol, c) {
      var q :| Meets(left, right, path, pol, q) && Tells(q, pol, c);
      MetIsReported(left, right, path, pol, q, c);
    }
  }

  // ---- Where changes below a record are reported ----

  // The path of a property: below the record's path, labelled with the generic identity that
  // both sides share unless the path is short or is labelled already.
  function PropertyPath(left: Value, right: Value, path: string, k: Key): string
  {
    var id := FindIdentity(left, GENERIC_KEYS, true);
    var labelled := '.' in path && path[|path| - 1] != ']' && id.Some? && id == FindIdentity(right, GENERIC_KEYS, true);
    var base := if labelled then path + "[" + id.value + "]" else path;
    if base == "" then RenderKey(k) else base + "." + RenderKey(k)
  }

  lemma PropertyPathsAgree(left: Value, right: Value, path: string, k: Key)
    ensures PropertyPath(left, right, path, k) == AppendPath(ObjectPath(left, right, path), RenderKey(k))
  {
    var id := FindIdentity(left, GENERIC_KEYS, true);
    assert id.Some? ==> ItemPath(path, id.value) == path + "[" + id.value + "]";
  }

  lemma PropertiesAreCompared(left: Value, right: Value, path: string, pol: Policies, c: Change)
    requires left.Record? && right.Record? && !IsKeyedCollection(path, pol)
    ensures c in DiffValue(left, right, path, pol)
      <==> exists k :: k in left.fields.Keys + right.fields.Keys
             && c in DiffValue(Field(left, k), Field(right, k), PropertyPath(left, right, path, k), pol)
  {
    forall k ensures PropertyPath(left, right, path, k) == AppendPath(ObjectPath(left, right, path), RenderKey(k)) {
      PropertyPathsAgree(left, right, path, k);
    }
    if c in DiffFields(left, right, path, pol) {
      var k :| k in left.fields.Keys + right.fields.Keys
        && c in DiffValue(Field(left, k), Field(right, k), AppendPath(ObjectPath(left, right, path), RenderKey(k)), pol);
      assert c in DiffValue(Field(left, k), Field(right, k), PropertyPath(left, right, path, k), pol);
    }
  }

  // ---- Single pairs ----

  // Values that differ and are no two records, outside collections: one modification, here.
  lemma UnequalValuesAreModified(left: Value, right: Value, path: string, pol: Policies)
    requires Item(left) && Item(right) && !(left.Record? && right.Record?) && left != right
    requires !IsKeyedCollection(path, pol)
    ensures DiffValue(left, right, path, pol) == {Change(MODIFIED, path)}
  {
  }

  // How an item of a collection is called in paths.
  function ItemLabel(items: seq<Value>, i: nat, path: string, pol: Policies): string
    requires i < |items|
  {
    var ids := Identities(items, path, pol);
    if AllUnique(ids) then ids[i].value else Decimal(i)
  }

  function ItemAdditions(items: seq<Value>, path: string, pol: Policies): set<Change>
  {
    set i: nat | i < |items| :: Change(ADDED, ItemPath(path, ItemLabel(items, i, path, pol)))
  }

  // A value that is new: one addition, or one for every item of a collection.
  function Additions(v: Value, path: string, pol: Policies): set<Change>
  {
    if v.Array? || IsKeyedCollection(path, pol) then
      ItemAdditions(AsCollection(v), path, pol)
    else {Change(ADDED, path)}
  }

  lemma NewValueIsAdded(v: Value, path: string, pol: Policies)
    requires v != Undefined && (forall i | 0 <= i < |AsCollection(v)| :: Item(AsCollection(v)[i]))
    ensures DiffValue(Undefined, v, path, pol) == Additions(v, path, pol)
    ensures DiffValue(v, Undefined, path, pol) == Mirror(Additions(v, path, pol))
  {
    DiffMirrors(Undefined, v, path, pol);
    if v.Array? || IsKeyedCollection(path, pol) {
      var items := AsCollection(v);
      if AllUnique(Identities(items, path, pol)) { NewItemsByIdentity(items, path, pol); }
      else { NewItemsByIndex(items, path, pol); }
      assert DiffValue(Undefined, v, path, pol) == DiffArray([], items, path, pol);
    }
  }

  lemma NewItem(v: Value, path: string, lbl: string, pol: Policies)
    requires Item(v)
    ensures DiffValue(Undefined, v, ItemPath(path, lbl), pol) == {Change(ADDED, ItemPath(path, lbl))}
  {
  }

  lemma NewItemsByIndex(items: seq<Value>, path: string, pol: Policies)
    requires !AllUnique(Identities(items, path, pol)) && (forall i | 0 <= i < |items| :: Item(items[i]))
    ensures DiffArray([], items, path, pol) == ItemAdditions(items, path, pol)
  {
    forall i: nat | i < |items|
      ensures PairDiff([], items, i, path, pol) == {Change(ADDED, ItemPath(path, Decimal(i)))}
    {
      NewItem(items[i], path, Decimal(i), pol);
    }
    forall c ensures c in DiffByIndex([], items, path, pol) <==> c in ItemAdditions(items, path, pol) {
      InDiffByIndex([], items, path, pol, c);
      if c in DiffByIndex([], items, path, pol) {
        var i: nat :| i < Longer([], items) && c in PairDiff([], items, i, path, pol);
        assert c == Change(ADDED, ItemPath(path, ItemLabel(items, i, path, pol)));
      }
      if c in ItemAdditions(items, path, pol) {
        var i: nat :| i < |items| && c == Change(ADDED, ItemPath(path, ItemLabel(items, i, path, pol)));
        assert c in PairDiff([], items, i, path, pol);
      }
    }
  }

  lemma NewNamedItem(items: seq<Value>, i: nat, path: string, pol: Policies)
    requires AllUnique(Identities(items, path, pol)) && i < |items| && Item(items[i])
    ensures var ids := Identities(items, path, pol);
      && Known([], ids, ids[i])
      && NamedDiff([], [], items, ids, ids[i], path, pol) == {Change(ADDED, ItemPath(path, ids[i].value))}
  {
    var ids := Identities(items, path, pol);
    assert ids[i] in [] + ids;
    FoundByUniqueId(items, ids, i);
    NewItem(items[i], path, ids[i].value, pol);
  }

  lemma NewItemsByIdentity(items: seq<Value>, path: string, pol: Policies)
    requires AllUnique(Identities(items, path, pol)) && (forall i | 0 <= i < |items| :: Item(items[i]))
    ensures DiffArray([], items, path, pol) == ItemAdditions(items, path, pol)
  {
    var ids := Identities(items, path, pol);
    assert Identities([], path, pol) == [];
    forall c ensures c in DiffByIdentity([], items, path, pol) <==> c in ItemAdditions(items, path, pol) {
      InDiffByIdentity([], items, path, pol, c);
      if c in DiffByIdentity([], items, path, pol) {
        var id :| Known([], ids, id) && c in NamedDiff([], [], items, ids, id, path, pol);
        var i :| 0 <= i < |ids| && ids[i] == id;
        NewNamedItem(items, i, path, pol);
        assert c == Change(ADDED, ItemPath(path, ItemLabel(items, i, path, pol)));
      }
      if c in ItemAdditions(items, path, pol) {
        var i: nat :| i < |items| && c == Change(ADDED, ItemPath(path, ItemLabel(items, i, path, pol)));
        NewNamedItem(items, i, path, pol);
      }
    }
  }
}
