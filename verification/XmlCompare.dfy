// The recursive comparison as the program runs it: loops that fill a record or a list of
// changes, each proved to give what the definitions in XmlDiff say.
module XmlCompare {
  import opened Options
  import opened StringKit
  import opened XmlSemantics
  import opened XmlDiff
  import opened XmlVerdict

  function Elements(changes: seq<Change>): set<Change>
  {
    set c | c in changes
  }

  lemma ElementsOfConcat(a: seq<Change>, b: seq<Change>)
    ensures Elements(a + b) == Elements(a) + Elements(b)
  {
  }

  // ---- removeFormattingWhitespace ----

  method RemoveWhitespace(v: Value) returns (r: Value)
    ensures r == RemoveFormattingWhitespace(v)
    decreases v
  {
    match v
    case Array(items) =>
      var kept: seq<Value> := [];
      var i := 0;
      while i < |items|
        invariant i == |kept| <= |items|
        invariant forall k | 0 <= k < i :: kept[k] == RemoveFormattingWhitespace(items[k])
      {
        var item := RemoveWhitespace(items[i]);
        kept := kept + [item];
        i := i + 1;
      }
      r := Array(kept);
      assert kept == RemoveFormattingWhitespace(v).items;
    case Record(fields) =>
      var normalized: map<Key, Value> := map[];
      var todo := fields.Keys;
      while todo != {}
        invariant todo <= fields.Keys
        invariant forall k :: k in normalized <==> k in fields.Keys - todo && !IsFormatting(k, fields[k])
        invariant forall k | k in normalized :: normalized[k] == RemoveFormattingWhitespace(fields[k])
        decreases |todo|
      {
        var k :| k in todo;
        todo := todo - {k};
        if !IsFormatting(k, fields[k]) {
          var child := RemoveWhitespace(fields[k]);
          normalized := normalized[k := child];
        }
      }
      r := Record(normalized);
      assert normalized == RemoveFormattingWhitespace(v).fields;
    case _ => r := v;
  }

  // ---- diffValue ----

  function SomeFields(left: Value, right: Value, objectPath: string, pol: Policies, keys: set<Key>): set<Change>
    requires left.Record? && right.Record?
  {
    set k, c | k in keys && c in DiffValue(Field(left, k), Field(right, k), AppendPath(objectPath, RenderKey(k)), pol) :: c
  }

  lemma OneMoreField(left: Value, right: Value, objectPath: string, pol: Policies, keys: set<Key>, k: Key)
    requires left.Record? && right.Record?
    ensures SomeFields(left, right, objectPath, pol, keys + {k})
      == SomeFields(left, right, objectPath, pol, keys)
        + DiffValue(Field(left, k), Field(right, k), AppendPath(objectPath, RenderKey(k)), pol)
  {
  }

  lemma AllFields(left: Value, right: Value, path: string, pol: Policies)
    requires left.Record? && right.Record?
    ensures DiffFields(left, right, path, pol)
      == SomeFields(left, right, ObjectPath(left, right, path), pol, left.fields.Keys + right.fields.Keys)
  {
  }

  method CollectValue(left: Value, right: Value, path: string, pol: Policies) returns (changes: seq<Change>)
    ensures Elements(changes) == DiffValue(left, right, path, pol)
    decreases Height(left) + Height(right), if EndsWithBracket(path) then 0 else 2, 1
  {
    if left == right && (left.Undefined? || left.Text?) { return []; }
    if left.Array? || right.Array? || IsKeyedCollection(path, pol) {
      CollectionHeight(left);
      CollectionHeight(right);
      changes := CollectArray(AsCollection(left), AsCollection(right), path, pol);
      return;
    }
    if left.Undefined? { return [Change(ADDED, path)]; }
    if right.Undefined? { return [Change(REMOVED, path)]; }
    if left.Record? && right.Record? {
      changes := CollectFields(left, right, path, pol);
      return;
    }
    return [Change(MODIFIED, path)];
  }

  method CollectFields(left: Value, right: Value, path: string, pol: Policies) returns (changes: seq<Change>)
    requires left.Record? && right.Record?
    ensures Elements(changes) == DiffFields(left, right, path, pol)
    decreases Height(left) + Height(right), if EndsWithBracket(path) then 0 else 2, 0
  {
    var objectPath := ObjectPath(left, right, path);
    var keys := left.fields.Keys + right.fields.Keys;
    var todo := keys;
    changes := [];
    FieldHeights(left);
    FieldHeights(right);
    while todo != {}
      invariant todo <= keys
      invariant Elements(changes) == SomeFields(left, right, objectPath, pol, keys - todo)
      decreases |todo|
    {
      var k :| k in todo;
      OneMoreField(left, right, objectPath, pol, keys - todo, k);
      var more := CollectValue(Field(left, k), Field(right, k), AppendPath(objectPath, RenderKey(k)), pol);
      ElementsOfConcat(changes, more);
      changes := changes + more;
      assert keys - todo + {k} == keys - (todo - {k});
      todo := todo - {k};
    }
    assert keys - todo == keys;
    AllFields(left, right, path, pol);
  }

  // ---- diffArray ----

  function FirstPairs(left: seq<Value>, right: seq<Value>, path: string, pol: Policies, n: nat): set<Change>
  {
    set i: nat, c | i < n && c in DiffValue(At(left, i), At(right, i), ItemPath(path, Decimal(i)), pol) :: c
  }

  lemma OneMorePair(left: seq<Value>, right: seq<Value>, path: string, pol: Policies, n: nat)
    ensures FirstPairs(left, right, path, pol, n + 1)
      == FirstPairs(left, right, path, pol, n) + DiffValue(At(left, n), At(right, n), ItemPath(path, Decimal(n)), pol)
  {
    forall c ensures c in FirstPairs(left, right, path, pol, n + 1)
      <==> c in FirstPairs(left, right, path, pol, n) || c in DiffValue(At(left, n), At(right, n), ItemPath(path, Decimal(n)), pol)
    {
      if c in FirstPairs(left, right, path, pol, n + 1) {
        var i: nat :| i < n + 1 && c in DiffValue(At(left, i), At(right, i), ItemPath(path, Decimal(i)), pol);
        assert i < n || i == n;
      }
    }
  }

  lemma AllPairs(left: seq<Value>, right: seq<Value>, path: string, pol: Policies)
    ensures DiffByIndex(left, right, path, pol) == FirstPairs(left, right, path, pol, Longer(left, right))
  {
  }

  method CollectByIndex(left: seq<Value>, right: seq<Value>, path: string, pol: Policies) returns (changes: seq<Change>)
    ensures Elements(changes) == DiffByIndex(left, right, path, pol)
    decreases HeightAll(left) + HeightAll(right), 0, 2
  {
    var length := Longer(left, right);
    var index := 0;
    changes := [];
    AtHeights(left);
    AtHeights(right);
    while index < length
      invariant index <= length
      invariant Elements(changes) == FirstPairs(left, right, path, pol, index)
    {
      OneMorePair(left, right, path, pol, index);
      var more := CollectValue(At(left, index), At(right, index), ItemPath(path, Decimal(index)), pol);
      ElementsOfConcat(changes, more);
      changes := changes + more;
      index := index + 1;
    }
    AllPairs(left, right, path, pol);
  }

  function SomeNamed(left: seq<Value>, leftIds: seq<Option<string>>, right: seq<Value>, rightIds: seq<Option<string>>,
                     path: string, pol: Policies, ids: set<Option<string>>): set<Change>
    requires |left| == |leftIds| && |right| == |rightIds| && None !in ids
  {
    set id, c | id in ids && c in DiffValue(ByIdentity(left, leftIds, id), ByIdentity(right, rightIds, id),
                                            ItemPath(path, id.value), pol) :: c
  }

  lemma OneMoreNamed(left: seq<Value>, leftIds: seq<Option<string>>, right: seq<Value>, rightIds: seq<Option<string>>,
                     path: string, pol: Policies, ids: set<Option<string>>, id: Option<string>)
    requires |left| == |leftIds| && |right| == |rightIds| && None !in ids && id.Some?
    ensures SomeNamed(left, leftIds, right, rightIds, path, pol, ids + {id})
      == SomeNamed(left, leftIds, right, rightIds, path, pol, ids)
        + DiffValue(ByIdentity(left, leftIds, id), ByIdentity(right, rightIds, id), ItemPath(path, id.value), pol)
  {
  }

  lemma AllNamed(left: seq<Value>, right: seq<Value>, path: string, pol: Policies, ids: set<Option<string>>)
    requires AllUnique(Identities(left, path, pol)) && AllUnique(Identities(right, path, pol))
    requires None !in ids && forall id :: id in ids <==> id in Identities(left, path, pol) + Identities(right, path, pol)
    ensures DiffByIdentity(left, right, path, pol)
      == SomeNamed(left, Identities(left, path, pol), right, Identities(right, path, pol), path, pol, ids)
  {
  }

  method CollectByIdentity(left: seq<Value>, right: seq<Value>, path: string, pol: Policies) returns (changes: seq<Change>)
    requires AllUnique(Identities(left, path, pol)) && AllUnique(Identities(right, path, pol))
    ensures Elements(changes) == DiffByIdentity(left, right, path, pol)
    decreases HeightAll(left) + HeightAll(right), 0, 2
  {
    var leftIds, rightIds := Identities(left, path, pol), Identities(right, path, pol);
    var ids := set id | id in leftIds + rightIds;
    var todo := ids;
    changes := [];
    ByIdentityHeights(left, leftIds);
    ByIdentityHeights(right, rightIds);
    while todo != {}
      invariant todo <= ids
      invariant Elements(changes) == SomeNamed(left, leftIds, right, rightIds, path, pol, ids - todo)
      decreases |todo|
    {
      var id :| id in todo;
      OneMoreNamed(left, leftIds, right, rightIds, path, pol, ids - todo, id);
      var more := CollectValue(ByIdentity(left, leftIds, id), ByIdentity(right, rightIds, id), ItemPath(path, id.value), pol);
      ElementsOfConcat(changes, more);
      changes := changes + more;
      assert ids - todo + {id} == ids - (todo - {id});
      todo := todo - {id};
    }
    assert ids - todo == ids;
    AllNamed(left, right, path, pol, ids);
  }

  method CollectArray(left: seq<Value>, right: seq<Value>, path: string, pol: Policies) returns (changes: seq<Change>)
    ensures Elements(changes) == DiffArray(left, right, path, pol)
    decreases HeightAll(left) + HeightAll(right), 1
  {
    var leftIds, rightIds := Identities(left, path, pol), Identities(right, path, pol);
    if !(AllUnique(leftIds) && AllUnique(rightIds)) {
      changes := CollectByIndex(left, right, path, pol);
      return;
    }
    changes := [];
    if Reordered(leftIds, rightIds, path, pol) { changes := [Change(REORDERED, path + ".$order")]; }
    var more := CollectByIdentity(left, right, path, pol);
    ElementsOfConcat(changes, more);
    changes := changes + more;
  }

  // compareXml: the list is empty exactly when the two documents are the same metadata.
  method CompareDocuments(leftName: string, left: Value, rightName: string, right: Value, pol: Policies)
    returns (changes: seq<Change>)
    requires TopLevelUnordered(pol) && XmlName(leftName) && XmlName(rightName)
    requires Item(left) && Item(right) && Parsed(left) && Parsed(right)
    ensures Elements(changes) == CompareXml(Document(leftName, left), Document(rightName, right), pol)
    ensures changes == []
      <==> (leftName == rightName
        && SameRoot(RemoveFormattingWhitespace(left), RemoveFormattingWhitespace(right), leftName, pol))
  {
    var l := RemoveWhitespace(Document(leftName, left));
    var r := RemoveWhitespace(Document(rightName, right));
    changes := CollectValue(l, r, "", pol);
    CompareXmlVerdict(leftName, left, rightName, right, pol);
    if changes != [] { assert changes[0] in Elements(changes); }
  }
}
