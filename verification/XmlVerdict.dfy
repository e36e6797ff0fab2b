// When compareXml reports no change: a description of the verdict that mentions neither
// paths nor changes, and its consequences (the verdict is an equivalence relation).
module XmlVerdict {
  import opened Options
  import opened StringKit
  import opened XmlSemantics
  import opened XmlDiff

  // ---- Paths below the root ----

  // Outside its labels the path has a dot: it names something below the root element.
  ghost predicate BelowRoot(path: string)
  {
    Closed(path) && '.' in StripBrackets(path)
  }

  // ... or even something below a child of the root element.
  ghost predicate BelowChild(path: string)
  {
    Closed(path) && Deep(StripBrackets(path))
  }

  lemma ItemPathExtends(path: string, lbl: string)
    requires Closed(path)
    ensures Closed(ItemPath(path, lbl))
    ensures BelowRoot(path) ==> BelowRoot(ItemPath(path, lbl))
    ensures BelowChild(path) ==> BelowChild(ItemPath(path, lbl)) && BelowRoot(ItemPath(path, lbl))
  {
    var tail := "[" + lbl + "]";
    assert ItemPath(path, lbl) == path + tail;
    EndsClosed(tail);
    StripConcat(path, tail);
    DeepExtends(StripBrackets(path), StripBrackets(tail));
  }

  lemma DeepExtends(a: string, b: string)
    ensures Deep(a) ==> Deep(a + b) && '.' in a + b
  {
    if Deep(a) {
      var i, j :| 0 <= i < j < |a| && a[i] == '.' && a[j] == '.';
      assert (a + b)[i] == '.' && (a + b)[j] == '.';
    }
  }

  lemma ChildPathExtends(path: string, key: string)
    requires Closed(path) && path != "" && Bracketless(key)
    ensures Closed(AppendPath(path, key)) && BelowRoot(AppendPath(path, key))
    ensures !EndsWithBracket(AppendPath(path, key))
    ensures StripBrackets(AppendPath(path, key)) == StripBrackets(path) + "." + key
    ensures BelowRoot(path) ==> BelowChild(AppendPath(path, key))
  {
    var tail := "." + key;
    assert AppendPath(path, key) == path + tail;
    assert Bracketless(tail);
    BracketlessIsPlain(tail);
    StripConcat(path, tail);
    var p := StripBrackets(path);
    assert StripBrackets(path + tail) == p + tail;
    assert (p + tail)[|p|] == '.';
    if '.' in p {
      var i :| 0 <= i < |p| && p[i] == '.';
      assert (p + tail)[i] == '.';
    }
  }

  // ---- Collections ----

  // What the comparison of two collections amounts to.
  ghost predicate SameCollection(left: seq<Value>, right: seq<Value>, path: string, pol: Policies)
  {
    if IgnoresOrder(pol, path)
      && AllUnique(Identities(left, path, pol)) && AllUnique(Identities(right, path, pol))
    then multiset(left) == multiset(right)
    else left == right
  }

  ghost predicate ItemsDecided(left: seq<Value>, right: seq<Value>, path: string, pol: Policies)
  {
    forall i, j, lbl | 0 <= i < |left| && 0 <= j < |right| ::
      DiffValue(left[i], right[j], ItemPath(path, lbl), pol) == {} <==> left[i] == right[j]
  }

  ghost predicate AllItems(s: seq<Value>)
  {
    forall i | 0 <= i < |s| :: Item(s[i])
  }

  lemma OneSided(v: Value, path: string, lbl: string, pol: Policies)
    requires Item(v)
    ensures DiffValue(Undefined, v, ItemPath(path, lbl), pol) == {Change(ADDED, ItemPath(path, lbl))}
    ensures DiffValue(v, Undefined, ItemPath(path, lbl), pol) == {Change(REMOVED, ItemPath(path, lbl))}
  {
  }

  lemma ByIndexVerdict(left: seq<Value>, right: seq<Value>, path: string, pol: Policies)
    requires AllItems(left) && AllItems(right) && ItemsDecided(left, right, path, pol)
    ensures DiffByIndex(left, right, path, pol) == {} <==> left == right
  {
    var n := Longer(left, right);
    forall i: nat | i < n
      ensures DiffValue(At(left, i), At(right, i), ItemPath(path, Decimal(i)), pol) == {}
        <==> At(left, i) == At(right, i)
    {
      if i >= |left| { OneSided(right[i], path, Decimal(i), pol); }
      else if i >= |right| { OneSided(left[i], path, Decimal(i), pol); }
    }
    var all := DiffByIndex(left, right, path, pol);
    if left != right {
      var i: nat := if |left| == |right| then FirstDifference(left, right) else if |left| < |right| then |left| else |right|;
      assert At(left, i) != At(right, i);
      var c :| c in DiffValue(At(left, i), At(right, i), ItemPath(path, Decimal(i)), pol);
      assert c in all;
    }
  }

  ghost function FirstDifference(a: seq<Value>, b: seq<Value>): (i: nat)
    requires |a| == |b| && a != b
    ensures i < |a| && a[i] != b[i]
  {
    var i :| 0 <= i < |a| && a[i] != b[i];
    i
  }

  ghost predicate SameByIdentity(left: seq<Value>, right: seq<Value>, path: string, pol: Policies)
  {
    var leftIds, rightIds := Identities(left, path, pol), Identities(right, path, pol);
    forall id | id in leftIds + rightIds :: ByIdentity(left, leftIds, id) == ByIdentity(right, rightIds, id)
  }

  lemma ByIdentityVerdict(left: seq<Value>, right: seq<Value>, path: string, pol: Policies)
    requires AllItems(left) && AllItems(right) && ItemsDecided(left, right, path, pol)
    requires AllUnique(Identities(left, path, pol)) && AllUnique(Identities(right, path, pol))
    ensures DiffByIdentity(left, right, path, pol) == {} <==> SameByIdentity(left, right, path, pol)
  {
    var leftIds, rightIds := Identities(left, path, pol), Identities(right, path, pol);
    forall id | id in leftIds + rightIds
      ensures DiffValue(ByIdentity(left, leftIds, id), ByIdentity(right, rightIds, id), ItemPath(path, id.value), pol) == {}
        <==> ByIdentity(left, leftIds, id) == ByIdentity(right, rightIds, id)
    {
      var l, r := ByIdentity(left, leftIds, id), ByIdentity(right, rightIds, id);
      if id !in leftIds { OneSided(r, path, id.value, pol); }
      else if id !in rightIds { OneSided(l, path, id.value, pol); }
    }
    var all := DiffByIdentity(left, right, path, pol);
    if !SameByIdentity(left, right, path, pol) {
      var id :| id in leftIds + rightIds && ByIdentity(left, leftIds, id) != ByIdentity(right, rightIds, id);
      var c :| c in DiffValue(ByIdentity(left, leftIds, id), ByIdentity(right, rightIds, id), ItemPath(path, id.value), pol);
      assert c in all;
    }
  }

  // In a uniquely keyed collection an item is found under its own identity.
  lemma FoundByUniqueId(items: seq<Value>, ids: seq<Option<string>>, i: nat)
    requires |items| == |ids| && AllUnique(ids) && i < |items|
    ensures ByIdentity(items, ids, ids[i]) == items[i]
  {
    assert ids[i] in ids;
    var j :| 0 <= j < |ids| && ids[j] == ids[i] && ByIdentity(items, ids, ids[i]) == items[j];
    assert j == i;
  }

  lemma EqualItemsShareIdentity(left: seq<Value>, right: seq<Value>, path: string, pol: Policies)
    ensures forall i, j | 0 <= i < |left| && 0 <= j < |right| && left[i] == right[j] ::
      Identities(left, path, pol)[i] == Identities(right, path, pol)[j]
  {
  }

  lemma {:induction false} DistinctCounts<T>(s: seq<T>, x: T)
    requires forall i, j | 0 <= i < j < |s| :: s[i] != s[j]
    ensures multiset(s)[x] == if x in s then 1 else 0
  {
    if s != [] {
      DistinctCounts(s[1..], x);
      assert s == [s[0]] + s[1..];
    }
  }

  lemma SameElementsOfDistinct<T>(a: seq<T>, b: seq<T>)
    requires forall i, j | 0 <= i < j < |a| :: a[i] != a[j]
    requires forall i, j | 0 <= i < j < |b| :: b[i] != b[j]
    requires forall x :: x in a <==> x in b
    ensures multiset(a) == multiset(b)
  {
    forall x ensures multiset(a)[x] == multiset(b)[x] {
      DistinctCounts(a, x);
      DistinctCounts(b, x);
    }
  }

  lemma SameElements(left: seq<Value>, right: seq<Value>, path: string, pol: Policies)
    requires AllItems(left)
    requires AllUnique(Identities(left, path, pol)) && AllUnique(Identities(right, path, pol))
    requires SameByIdentity(left, right, path, pol)
    ensures forall v | v in left :: v in right
  {
    var leftIds, rightIds := Identities(left, path, pol), Identities(right, path, pol);
    forall v | v in left ensures v in right {
      var i :| 0 <= i < |left| && left[i] == v;
      FoundByUniqueId(left, leftIds, i);
      assert leftIds[i] in leftIds + rightIds;
    }
  }

  lemma SameByIdentityFlips(left: seq<Value>, right: seq<Value>, path: string, pol: Policies)
    requires SameByIdentity(left, right, path, pol)
    ensures SameByIdentity(right, left, path, pol)
  {
  }

  // Matching by identity finds the same items on both sides, in whatever order.
  lemma SameByIdentityIsPermutation(left: seq<Value>, right: seq<Value>, path: string, pol: Policies)
    requires AllItems(left) && AllItems(right)
    requires AllUnique(Identities(left, path, pol)) && AllUnique(Identities(right, path, pol))
    ensures SameByIdentity(left, right, path, pol) <==> multiset(left) == multiset(right)
  {
    var leftIds, rightIds := Identities(left, path, pol), Identities(right, path, pol);
    EqualItemsShareIdentity(left, left, path, pol);
    EqualItemsShareIdentity(right, right, path, pol);
    EqualItemsShareIdentity(left, right, path, pol);
    if SameByIdentity(left, right, path, pol) {
      SameByIdentityFlips(left, right, path, pol);
      SameElements(left, right, path, pol);
      SameElements(right, left, path, pol);
      SameElementsOfDistinct(left, right);
    }
    if multiset(left) == multiset(right) {
      PermutationMatches(left, right, path, pol);
      PermutationMatches(right, left, path, pol);
    }
  }

  lemma PermutationMatches(left: seq<Value>, right: seq<Value>, path: string, pol: Policies)
    requires AllUnique(Identities(left, path, pol)) && AllUnique(Identities(right, path, pol))
    requires multiset(left) == multiset(right)
    ensures forall id | id in Identities(left, path, pol) ::
      ByIdentity(left, Identities(left, path, pol), id) == ByIdentity(right, Identities(right, path, pol), id)
  {
    var leftIds, rightIds := Identities(left, path, pol), Identities(right, path, pol);
    forall id | id in leftIds
      ensures ByIdentity(left, leftIds, id) == ByIdentity(right, rightIds, id)
    {
      var i :| 0 <= i < |leftIds| && leftIds[i] == id;
      assert left[i] in multiset(right);
      var j :| 0 <= j < |right| && right[j] == left[i];
      EqualItemsShareIdentity(left, right, path, pol);
      FoundByUniqueId(left, leftIds, i);
      FoundByUniqueId(right, rightIds, j);
    }
  }

  lemma OrderedMatches(left: seq<Value>, right: seq<Value>, path: string, pol: Policies)
    requires AllItems(left) && AllItems(right) && !IgnoresOrder(pol, path)
    requires AllUnique(Identities(left, path, pol)) && AllUnique(Identities(right, path, pol))
    requires !Reordered(Identities(left, path, pol), Identities(right, path, pol), path, pol)
    requires SameByIdentity(left, right, path, pol)
    ensures left == right
  {
    var leftIds, rightIds := Identities(left, path, pol), Identities(right, path, pol);
    SameByIdentityIsPermutation(left, right, path, pol);
    assert |multiset(left)| == |left| && |multiset(right)| == |right|;
    EqualItemsShareIdentity(left, right, path, pol);
    forall i | 0 <= i < |left| ensures leftIds[i] in rightIds {
      assert left[i] in multiset(right);
      var j :| 0 <= j < |right| && right[j] == left[i];
      assert rightIds[j] == leftIds[i];
    }
    forall i | 0 <= i < |left| ensures left[i] == right[i] {
      FoundByUniqueId(left, leftIds, i);
      FoundByUniqueId(right, rightIds, i);
      assert leftIds[i] in leftIds + rightIds;
    }
  }

  lemma ArrayVerdict(left: seq<Value>, right: seq<Value>, path: string, pol: Policies)
    requires AllItems(left) && AllItems(right) && ItemsDecided(left, right, path, pol)
    ensures DiffArray(left, right, path, pol) == {} <==> SameCollection(left, right, path, pol)
  {
    var leftIds, rightIds := Identities(left, path, pol), Identities(right, path, pol);
    if AllUnique(leftIds) && AllUnique(rightIds) {
      ByIdentityVerdict(left, right, path, pol);
      SameByIdentityIsPermutation(left, right, path, pol);
      if !IgnoresOrder(pol, path) && DiffArray(left, right, path, pol) == {} {
        assert !Reordered(leftIds, rightIds, path, pol);
        OrderedMatches(left, right, path, pol);
      }
    } else {
      ByIndexVerdict(left, right, path, pol);
    }
  }

  // ---- Items and fields below the root ----

  // Two values of one property directly below the root, compared as the policy says.
  ghost predicate SameField(left: Value, right: Value, path: string, pol: Policies)
  {
    SameCollection(AsCollection(left), AsCollection(right), path, pol)
  }

  lemma CollectionIsTheField(left: Value, right: Value)
    requires Parsed(left) && Parsed(right)
    ensures AllItems(AsCollection(left)) && AllItems(AsCollection(right))
    ensures AsCollection(left) == AsCollection(right) <==> left == right
  {
  }

  lemma FieldsVerdict(left: Value, right: Value, path: string, pol: Policies)
    requires left.Record? && right.Record? && Parsed(left) && Parsed(right)
    requires forall k | k in left.fields.Keys + right.fields.Keys ::
      DiffValue(Field(left, k), Field(right, k), AppendPath(ObjectPath(left, right, path), RenderKey(k)), pol) == {}
      <==> Field(left, k) == Field(right, k)
    ensures DiffFields(left, right, path, pol) == {} <==> left == right
  {
    var objectPath := ObjectPath(left, right, path);
    var all := DiffFields(left, right, path, pol);
    forall k | k in left.fields.Keys + right.fields.Keys && Field(left, k) != Field(right, k)
      ensures all != {}
    {
      var c :| c in DiffValue(Field(left, k), Field(right, k), AppendPath(objectPath, RenderKey(k)), pol);
      assert c in all;
    }
    if forall k | k in left.fields.Keys + right.fields.Keys :: Field(left, k) == Field(right, k) {
      assert forall k :: k in left.fields <==> Field(left, k) != Undefined;
      assert forall k :: k in right.fields <==> Field(right, k) != Undefined;
      assert left.fields == right.fields;
    }
  }

  lemma {:induction false} ItemVerdict(left: Value, right: Value, path: string, pol: Policies)
    requires TopLevelUnordered(pol) && BelowRoot(path) && !IsKeyedCollection(path, pol)
    requires Item(left) && Item(right) && Parsed(left) && Parsed(right)
    ensures DiffValue(left, right, path, pol) == {} <==> left == right
    decreases Height(left) + Height(right), 0
  {
    if left.Record? && right.Record? {
      var objectPath := ObjectPath(left, right, path);
      var id := FindIdentity(left, GENERIC_KEYS, true);
      if id.Some? { ItemPathExtends(path, id.value); }
      FieldHeights(left);
      FieldHeights(right);
      forall k | k in left.fields.Keys + right.fields.Keys
        ensures DiffValue(Field(left, k), Field(right, k), AppendPath(objectPath, RenderKey(k)), pol) == {}
          <==> Field(left, k) == Field(right, k)
      {
        ChildPathExtends(objectPath, RenderKey(k));
        DeepPathsKeepOrder(pol, AppendPath(objectPath, RenderKey(k)));
        FieldVerdict(Field(left, k), Field(right, k), AppendPath(objectPath, RenderKey(k)), pol);
      }
      FieldsVerdict(left, right, path, pol);
    }
  }

  // A property directly below the root is unchanged exactly when its collections agree as
  // the policy says; deeper down (where order always counts) exactly when it is equal.
  lemma {:induction false} FieldVerdict(left: Value, right: Value, path: string, pol: Policies)
    requires TopLevelUnordered(pol) && BelowRoot(path) && !EndsWithBracket(path)
    requires Parsed(left) && Parsed(right)
    ensures DiffValue(left, right, path, pol) == {} <==> SameField(left, right, path, pol)
    decreases Height(left) + Height(right), 1
  {
    CollectionIsTheField(left, right);
    if left.Array? || right.Array? || IsKeyedCollection(path, pol) {
      var ls, rs := AsCollection(left), AsCollection(right);
      CollectionHeight(left);
      CollectionHeight(right);
      forall i, j, lbl | 0 <= i < |ls| && 0 <= j < |rs|
        ensures DiffValue(ls[i], rs[j], ItemPath(path, lbl), pol) == {} <==> ls[i] == rs[j]
      {
        ItemPathExtends(path, lbl);
        ItemVerdict(ls[i], rs[j], ItemPath(path, lbl), pol);
      }
      ArrayVerdict(ls, rs, path, pol);
    } else if Item(left) && Item(right) {
      ItemVerdict(left, right, path, pol);
    }
  }

  // ---- Documents ----

  function Document(root: string, v: Value): Value
  {
    Record(map[Child(root) := v])
  }

  // compareXml of two parsed documents.
  function CompareXml(left: Value, right: Value, pol: Policies): set<Change>
  {
    DiffValue(RemoveFormattingWhitespace(left), RemoveFormattingWhitespace(right), "", pol)
  }

  ghost predicate SameRoot(left: Value, right: Value, name: string, pol: Policies)
  {
    if left.Record? && right.Record? then
      && left.fields.Keys == right.fields.Keys
      && (forall k | k in left.fields ::
            SameField(left.fields[k], right.fields[k], AppendPath(name, RenderKey(k)), pol))
    else left == right
  }

  ghost predicate XmlName(name: string)
  {
    name != "" && Bracketless(name)
  }

  lemma DotlessHasNoPolicy(pol: Policies, name: string)
    requires Bracketless(name) && '.' !in name
    ensures FindPolicy(pol, name).None?
  {
    BracketlessIsPlain(name);
    var prefix := pol.root + ".";
    assert prefix[|prefix| - 1] == '.';
  }

  lemma MissingFieldDiffers(v: Value, path: string, pol: Policies)
    requires Parsed(v) && v != Undefined
    ensures !SameField(v, Undefined, path, pol) && !SameField(Undefined, v, path, pol)
  {
    var items := AsCollection(v);
    assert items[0] in multiset(items);
  }

  lemma SingleFieldVerdict(left: Value, right: Value, path: string, pol: Policies)
    requires Item(left) && Item(right)
    ensures SameField(left, right, path, pol) <==> left == right
  {
    if multiset([left]) == multiset([right]) {
      assert left in multiset([right]);
    }
  }

  lemma MissingRoot(v: Value, name: string, pol: Policies)
    requires TopLevelUnordered(pol) && XmlName(name) && Item(v) && Parsed(v)
    ensures DiffValue(v, Undefined, name, pol) != {} && DiffValue(Undefined, v, name, pol) != {}
  {
    BracketlessIsPlain(name);
    if '.' in name {
      FieldVerdict(v, Undefined, name, pol);
      FieldVerdict(Undefined, v, name, pol);
      MissingFieldDiffers(v, name, pol);
    } else {
      DotlessHasNoPolicy(pol, name);
    }
  }

  lemma RootFieldsVerdict(left: Value, right: Value, name: string, pol: Policies)
    requires TopLevelUnordered(pol) && XmlName(name) && '.' !in name
    requires left.Record? && right.Record? && Parsed(left) && Parsed(right)
    ensures DiffFields(left, right, name, pol) == {} <==> SameRoot(left, right, name, pol)
  {
    BracketlessIsPlain(name);
    var all := DiffFields(left, right, name, pol);
    forall k | k in left.fields.Keys + right.fields.Keys
      ensures DiffValue(Field(left, k), Field(right, k), AppendPath(name, RenderKey(k)), pol) == {}
        <==> SameField(Field(left, k), Field(right, k), AppendPath(name, RenderKey(k)), pol)
      ensures (k !in left.fields || k !in right.fields)
        ==> !SameField(Field(left, k), Field(right, k), AppendPath(name, RenderKey(k)), pol)
    {
      var path := AppendPath(name, RenderKey(k));
      ChildPathExtends(name, RenderKey(k));
      FieldVerdict(Field(left, k), Field(right, k), path, pol);
      if k !in left.fields { MissingFieldDiffers(Field(right, k), path, pol); }
      if k !in right.fields { MissingFieldDiffers(Field(left, k), path, pol); }
    }
    forall k | k in left.fields.Keys + right.fields.Keys
      && !SameField(Field(left, k), Field(right, k), AppendPath(name, RenderKey(k)), pol)
      ensures all != {}
    {
      var c :| c in DiffValue(Field(left, k), Field(right, k), AppendPath(name, RenderKey(k)), pol);
      assert c in all;
    }
  }

  lemma DottedRootIsStrict(left: Value, right: Value, name: string, pol: Policies)
    requires TopLevelUnordered(pol) && XmlName(name) && '.' in name
    requires Item(left) && Item(right) && Parsed(left) && Parsed(right)
    ensures SameRoot(left, right, name, pol) <==> left == right
  {
    BracketlessIsPlain(name);
    if left.Record? && right.Record? && left.fields.Keys == right.fields.Keys {
      forall k | k in left.fields
        ensures SameField(left.fields[k], right.fields[k], AppendPath(name, RenderKey(k)), pol)
          <==> left.fields[k] == right.fields[k]
      {
        ChildPathExtends(name, RenderKey(k));
        DeepPathsKeepOrder(pol, AppendPath(name, RenderKey(k)));
        CollectionIsTheField(left.fields[k], right.fields[k]);
      }
      if SameRoot(left, right, name, pol) { assert left.fields == right.fields; }
    }
  }

  lemma RootVerdict(left: Value, right: Value, name: string, pol: Policies)
    requires TopLevelUnordered(pol) && XmlName(name)
    requires Item(left) && Item(right) && Parsed(left) && Parsed(right)
    ensures DiffValue(left, right, name, pol) == {} <==> SameRoot(left, right, name, pol)
  {
    BracketlessIsPlain(name);
    if '.' in name {
      FieldVerdict(left, right, name, pol);
      SingleFieldVerdict(left, right, name, pol);
      DottedRootIsStrict(left, right, name, pol);
    } else {
      DotlessHasNoPolicy(pol, name);
      if left.Record? && right.Record? {
        RootFieldsVerdict(left, right, name, pol);
      }
    }
  }

  lemma NoPolicyAtTop(pol: Policies)
    ensures FindPolicy(pol, "").None?
  {
    assert |pol.root + "."| > 0;
  }

  lemma DocumentsVerdict(leftName: string, l: Value, rightName: string, r: Value, pol: Policies)
    requires TopLevelUnordered(pol) && XmlName(leftName) && XmlName(rightName)
    requires Item(l) && Item(r) && Parsed(l) && Parsed(r)
    ensures DiffValue(Document(leftName, l), Document(rightName, r), "", pol) == {}
      <==> (leftName == rightName && SameRoot(l, r, leftName, pol))
  {
    if leftName == rightName {
      SharedRoot(leftName, l, r, pol);
      RootVerdict(l, r, leftName, pol);
    } else {
      RenamedRoot(leftName, l, rightName, r, pol);
    }
  }

  lemma RemovalInDocument(name: string, v: Value)
    ensures RemoveFormattingWhitespace(Document(name, v)) == Document(name, RemoveFormattingWhitespace(v))
  {
    var f := map[Child(name) := v];
    assert RemoveFormattingWhitespace(Record(f)).fields == map[Child(name) := RemoveFormattingWhitespace(v)];
  }

  // The verdict of compareXml, for every metadata type: no change is reported exactly when
  // the two documents are the same metadata.
  lemma CompareXmlVerdict(leftName: string, left: Value, rightName: string, right: Value, pol: Policies)
    requires TopLevelUnordered(pol) && XmlName(leftName) && XmlName(rightName)
    requires Item(left) && Item(right) && Parsed(left) && Parsed(right)
    ensures CompareXml(Document(leftName, left), Document(rightName, right), pol) == {}
      <==> (leftName == rightName
        && SameRoot(RemoveFormattingWhitespace(left), RemoveFormattingWhitespace(right), leftName, pol))
  {
    RemovalKeepsShape(left);
    RemovalKeepsShape(right);
    RemovalInDocument(leftName, left);
    RemovalInDocument(rightName, right);
    DocumentsVerdict(leftName, RemoveFormattingWhitespace(left), rightName, RemoveFormattingWhitespace(right), pol);
  }

  lemma TopLevelDiff(left: Value, right: Value, pol: Policies)
    requires left.Record? && right.Record?
    ensures DiffValue(left, right, "", pol) == DiffFields(left, right, "", pol)
    ensures ObjectPath(left, right, "") == ""
  {
    NoPolicyAtTop(pol);
  }

  lemma SharedRoot(name: string, l: Value, r: Value, pol: Policies)
    ensures DiffValue(Document(name, l), Document(name, r), "", pol) == DiffValue(l, r, name, pol)
  {
    var dl, dr := Document(name, l), Document(name, r);
    TopLevelDiff(dl, dr, pol);
    assert dl.fields.Keys + dr.fields.Keys == {Child(name)};
    assert Field(dl, Child(name)) == l && Field(dr, Child(name)) == r;
    assert AppendPath("", RenderKey(Child(name))) == name;
  }

  lemma RenamedRoot(leftName: string, l: Value, rightName: string, r: Value, pol: Policies)
    requires TopLevelUnordered(pol) && XmlName(leftName) && Item(l) && Parsed(l) && leftName != rightName
    ensures DiffValue(Document(leftName, l), Document(rightName, r), "", pol) != {}
  {
    var dl, dr := Document(leftName, l), Document(rightName, r);
    TopLevelDiff(dl, dr, pol);
    var k := Child(leftName);
    assert k in dl.fields.Keys + dr.fields.Keys && Field(dl, k) == l && Field(dr, k) == Undefined;
    assert AppendPath("", RenderKey(k)) == leftName;
    MissingRoot(l, leftName, pol);
    var c :| c in DiffValue(l, Undefined, leftName, pol);
    assert c in DiffFields(dl, dr, "", pol);
  }

  lemma SameFieldIsEquivalence(a: Value, b: Value, c: Value, path: string, pol: Policies)
    ensures SameField(a, a, path, pol)
    ensures SameField(a, b, path, pol) ==> SameField(b, a, path, pol)
    ensures SameField(a, b, path, pol) && SameField(b, c, path, pol) ==> SameField(a, c, path, pol)
  {
    var ua := AllUnique(Identities(AsCollection(a), path, pol));
    var ub := AllUnique(Identities(AsCollection(b), path, pol));
    var uc := AllUnique(Identities(AsCollection(c), path, pol));
    BagOrListIsTransitive(AsCollection(a), ua, AsCollection(b), ub, AsCollection(c), uc, IgnoresOrder(pol, path));
  }

  ghost predicate BagOrList<T>(a: seq<T>, ua: bool, b: seq<T>, ub: bool, loose: bool)
  {
    if loose && ua && ub then multiset(a) == multiset(b) else a == b
  }

  lemma BagOrListIsTransitive<T>(a: seq<T>, ua: bool, b: seq<T>, ub: bool, c: seq<T>, uc: bool, loose: bool)
    requires (a == b ==> ua == ub) && (b == c ==> ub == uc)
    ensures BagOrList(a, ua, b, ub, loose) && BagOrList(b, ub, c, uc, loose) ==> BagOrList(a, ua, c, uc, loose)
  {
  }

  // "compareXml reports no change" is an equivalence relation on parsed documents.
  lemma CompareXmlIsEquivalence(na: string, a: Value, nb: string, b: Value, nc: string, c: Value, pol: Policies)
    requires TopLevelUnordered(pol) && XmlName(na) && XmlName(nb) && XmlName(nc)
    requires Item(a) && Item(b) && Item(c) && Parsed(a) && Parsed(b) && Parsed(c)
    ensures CompareXml(Document(na, a), Document(na, a), pol) == {}
    ensures CompareXml(Document(na, a), Document(nb, b), pol) == {}
      ==> CompareXml(Document(nb, b), Document(na, a), pol) == {}
    ensures CompareXml(Document(na, a), Document(nb, b), pol) == {} && CompareXml(Document(nb, b), Document(nc, c), pol) == {}
      ==> CompareXml(Document(na, a), Document(nc, c), pol) == {}
  {
    CompareXmlVerdict(na, a, na, a, pol);
    CompareXmlVerdict(na, a, nb, b, pol);
    CompareXmlVerdict(nb, b, na, a, pol);
    CompareXmlVerdict(nb, b, nc, c, pol);
    CompareXmlVerdict(na, a, nc, c, pol);
    SameRootIsEquivalence(RemoveFormattingWhitespace(a), RemoveFormattingWhitespace(b), RemoveFormattingWhitespace(c), na, pol);
  }

  lemma SameRootIsEquivalence(a: Value, b: Value, c: Value, name: string, pol: Policies)
    ensures SameRoot(a, a, name, pol)
    ensures SameRoot(a, b, name, pol) ==> SameRoot(b, a, name, pol)
    ensures SameRoot(a, b, name, pol) && SameRoot(b, c, name, pol) ==> SameRoot(a, c, name, pol)
  {
    if a.Record? && b.Record? && c.Record? && SameRoot(a, b, name, pol) && SameRoot(b, c, name, pol) {
      forall k | k in a.fields
        ensures SameField(a.fields[k], c.fields[k], AppendPath(name, RenderKey(k)), pol)
      {
        SameFieldIsEquivalence(a.fields[k], b.fields[k], c.fields[k], AppendPath(name, RenderKey(k)), pol);
      }
    }
  }
}
