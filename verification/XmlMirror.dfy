// Comparing in the other direction reports the same changes with additions and removals
// exchanged.
module XmlMirror {
  import opened Options
  import opened StringKit
  import opened XmlSemantics
  import opened XmlDiff

  function Flip(c: Change): Change
  {
    match c.kind
    case ADDED => c.(kind := REMOVED)
    case REMOVED => c.(kind := ADDED)
    case _ => c
  }

  function Mirror(s: set<Change>): set<Change>
  {
    set c | c in s :: Flip(c)
  }

  lemma InMirror(s: set<Change>, c: Change)
    ensures c in Mirror(s) <==> Flip(c) in s
  {
    assert Flip(Flip(c)) == c;
  }

  lemma ObjectPathIsSymmetric(left: Value, right: Value, path: string)
    ensures ObjectPath(left, right, path) == ObjectPath(right, left, path)
  {
  }

  lemma {:induction false} DiffMirrors(left: Value, right: Value, path: string, pol: Policies)
    ensures DiffValue(right, left, path, pol) == Mirror(DiffValue(left, right, path, pol))
    decreases Height(left) + Height(right), if EndsWithBracket(path) then 0 else 2, 1
  {
    CollectionHeight(left);
    CollectionHeight(right);
    if left == right && (left.Undefined? || left.Text?) {
    } else if left.Array? || right.Array? || IsKeyedCollection(path, pol) {
      ArrayMirrors(AsCollection(left), AsCollection(right), path, pol);
    } else if left.Record? && right.Record? {
      FieldsMirror(left, right, path, pol);
    } else {
      var c := Change(if left.Undefined? then ADDED else if right.Undefined? then REMOVED else MODIFIED, path);
      assert DiffValue(left, right, path, pol) == {c} && DiffValue(right, left, path, pol) == {Flip(c)};
      assert Mirror({c}) == {Flip(c)};
    }
  }

  lemma {:induction false} FieldsMirror(left: Value, right: Value, path: string, pol: Policies)
    requires left.Record? && right.Record?
    ensures DiffFields(right, left, path, pol) == Mirror(DiffFields(left, right, path, pol))
    decreases Height(left) + Height(right), if EndsWithBracket(path) then 0 else 2, 0
  {
    ObjectPathIsSymmetric(left, right, path);
    var objectPath := ObjectPath(left, right, path);
    var keys := left.fields.Keys + right.fields.Keys;
    assert right.fields.Keys + left.fields.Keys == keys;
    FieldHeights(left);
    FieldHeights(right);
    forall k | k in keys
      ensures DiffValue(Field(right, k), Field(left, k), AppendPath(objectPath, RenderKey(k)), pol)
        == Mirror(DiffValue(Field(left, k), Field(right, k), AppendPath(objectPath, RenderKey(k)), pol))
    {
      DiffMirrors(Field(left, k), Field(right, k), AppendPath(objectPath, RenderKey(k)), pol);
    }
    forall c ensures c in DiffFields(right, left, path, pol) <==> c in Mirror(DiffFields(left, right, path, pol)) {
      InMirror(DiffFields(left, right, path, pol), c);
      if c in DiffFields(right, left, path, pol) {
        var k :| k in keys && c in DiffValue(Field(right, k), Field(left, k), AppendPath(objectPath, RenderKey(k)), pol);
        InMirror(DiffValue(Field(left, k), Field(right, k), AppendPath(objectPath, RenderKey(k)), pol), c);
      }
      if Flip(c) in DiffFields(left, right, path, pol) {
        var k :| k in keys && Flip(c) in DiffValue(Field(left, k), Field(right, k), AppendPath(objectPath, RenderKey(k)), pol);
        InMirror(DiffValue(Field(left, k), Field(right, k), AppendPath(objectPath, RenderKey(k)), pol), c);
      }
    }
  }

  function PairDiff(left: seq<Value>, right: seq<Value>, i: nat, path: string, pol: Policies): set<Change>
  {
    DiffValue(At(left, i), At(right, i), ItemPath(path, Decimal(i)), pol)
  }

  lemma InDiffByIndex(left: seq<Value>, right: seq<Value>, path: string, pol: Policies, c: Change)
    ensures c in DiffByIndex(left, right, path, pol)
      <==> exists i: nat :: i < Longer(left, right) && c in PairDiff(left, right, i, path, pol)
  {
    if c in DiffByIndex(left, right, path, pol) {
      var i: nat :| i < Longer(left, right) && c in DiffValue(At(left, i), At(right, i), ItemPath(path, Decimal(i)), pol);
      assert c in PairDiff(left, right, i, path, pol);
    }
  }

  lemma {:induction false} ByIndexMirrors(left: seq<Value>, right: seq<Value>, path: string, pol: Policies)
    ensures DiffByIndex(right, left, path, pol) == Mirror(DiffByIndex(left, right, path, pol))
    decreases HeightAll(left) + HeightAll(right), 0, 2
  {
    AtHeights(left);
    AtHeights(right);
    var n := Longer(left, right);
    forall i: nat | i < n ensures PairDiff(right, left, i, path, pol) == Mirror(PairDiff(left, right, i, path, pol)) {
      DiffMirrors(At(left, i), At(right, i), ItemPath(path, Decimal(i)), pol);
    }
    forall c ensures c in DiffByIndex(right, left, path, pol) <==> c in Mirror(DiffByIndex(left, right, path, pol)) {
      InMirror(DiffByIndex(left, right, path, pol), c);
      InDiffByIndex(right, left, path, pol, c);
      InDiffByIndex(left, right, path, pol, Flip(c));
      if exists i: nat :: i < n && c in PairDiff(right, left, i, path, pol) {
        var i: nat :| i < n && c in PairDiff(right, left, i, path, pol);
        InMirror(PairDiff(left, right, i, path, pol), c);
      }
      if exists i: nat :: i < n && Flip(c) in PairDiff(left, right, i, path, pol) {
        var i: nat :| i < n && Flip(c) in PairDiff(left, right, i, path, pol);
        InMirror(PairDiff(left, right, i, path, pol), c);
      }
    }
  }

  function NamedDiff(left: seq<Value>, leftIds: seq<Option<string>>, right: seq<Value>, rightIds: seq<Option<string>>,
                     id: Option<string>, path: string, pol: Policies): set<Change>
    requires |left| == |leftIds| && |right| == |rightIds| && id.Some?
  {
    DiffValue(ByIdentity(left, leftIds, id), ByIdentity(right, rightIds, id), ItemPath(path, id.value), pol)
  }

  predicate Known(leftIds: seq<Option<string>>, rightIds: seq<Option<string>>, id: Option<string>)
  {
    id.Some? && id in leftIds + rightIds
  }

  lemma InDiffByIdentity(left: seq<Value>, right: seq<Value>, path: string, pol: Policies, c: Change)
    requires AllUnique(Identities(left, path, pol)) && AllUnique(Identities(right, path, pol))
    ensures var leftIds, rightIds := Identities(left, path, pol), Identities(right, path, pol);
      c in DiffByIdentity(left, right, path, pol)
      <==> exists id :: Known(leftIds, rightIds, id) && c in NamedDiff(left, leftIds, right, rightIds, id, path, pol)
  {
    var leftIds, rightIds := Identities(left, path, pol), Identities(right, path, pol);
    var all := DiffByIdentity(left, right, path, pol);
    if c in all {
      var id :| id in leftIds + rightIds
        && c in DiffValue(ByIdentity(left, leftIds, id), ByIdentity(right, rightIds, id), ItemPath(path, id.value), pol);
      assert Known(leftIds, rightIds, id) && c in NamedDiff(left, leftIds, right, rightIds, id, path, pol);
    }
    if exists id :: Known(leftIds, rightIds, id) && c in NamedDiff(left, leftIds, right, rightIds, id, path, pol) {
      var id :| Known(leftIds, rightIds, id) && c in NamedDiff(left, leftIds, right, rightIds, id, path, pol);
      assert id in leftIds + rightIds;
    }
  }

  lemma {:induction false} ByIdentityMirrors(left: seq<Value>, right: seq<Value>, path: string, pol: Policies)
    requires AllUnique(Identities(left, path, pol)) && AllUnique(Identities(right, path, pol))
    ensures DiffByIdentity(right, left, path, pol) == Mirror(DiffByIdentity(left, right, path, pol))
    decreases HeightAll(left) + HeightAll(right), 0, 2
  {
    var leftIds, rightIds := Identities(left, path, pol), Identities(right, path, pol);
    forall id | Known(leftIds, rightIds, id)
      ensures NamedDiff(right, rightIds, left, leftIds, id, path, pol) == Mirror(NamedDiff(left, leftIds, right, rightIds, id, path, pol))
    {
      ByIdentityHeights(left, leftIds);
      ByIdentityHeights(right, rightIds);
      DiffMirrors(ByIdentity(left, leftIds, id), ByIdentity(right, rightIds, id), ItemPath(path, id.value), pol);
    }
    forall c ensures c in DiffByIdentity(right, left, path, pol) <==> c in Mirror(DiffByIdentity(left, right, path, pol)) {
      NamedMirrors(left, right, path, pol, c);
    }
  }

  lemma NamedMirrors(left: seq<Value>, right: seq<Value>, path: string, pol: Policies, c: Change)
    requires AllUnique(Identities(left, path, pol)) && AllUnique(Identities(right, path, pol))
    requires var leftIds, rightIds := Identities(left, path, pol), Identities(right, path, pol);
      forall id | Known(leftIds, rightIds, id) ::
        NamedDiff(right, rightIds, left, leftIds, id, path, pol) == Mirror(NamedDiff(left, leftIds, right, rightIds, id, path, pol))
    ensures c in DiffByIdentity(right, left, path, pol) <==> c in Mirror(DiffByIdentity(left, right, path, pol))
  {
    var leftIds, rightIds := Identities(left, path, pol), Identities(right, path, pol);
    InMirror(DiffByIdentity(left, right, path, pol), c);
    InDiffByIdentity(right, left, path, pol, c);
    InDiffByIdentity(left, right, path, pol, Flip(c));
    forall id | Known(leftIds, rightIds, id)
      ensures Known(rightIds, leftIds, id)
      ensures c in NamedDiff(right, rightIds, left, leftIds, id, path, pol)
        <==> Flip(c) in NamedDiff(left, leftIds, right, rightIds, id, path, pol)
    {
      InMirror(NamedDiff(left, leftIds, right, rightIds, id, path, pol), c);
    }
    forall id | Known(rightIds, leftIds, id) ensures Known(leftIds, rightIds, id) {
    }
  }

  lemma ReorderedIsSymmetric(leftIds: seq<Option<string>>, rightIds: seq<Option<string>>, path: string, pol: Policies)
    requires AllUnique(leftIds) && AllUnique(rightIds)
    ensures Reordered(leftIds, rightIds, path, pol) <==> Reordered(rightIds, leftIds, path, pol)
  {
    if Reordered(leftIds, rightIds, path, pol) { AllFound(leftIds, rightIds); }
    if Reordered(rightIds, leftIds, path, pol) { AllFound(rightIds, leftIds); }
  }

  // Distinct values found in a list of the same length use all of it.
  lemma {:induction false} AllFound<T>(a: seq<T>, b: seq<T>)
    requires |a| == |b| && (forall i | 0 <= i < |a| :: a[i] in b)
    requires forall i, j | 0 <= i < j < |a| :: a[i] != a[j]
    ensures forall j | 0 <= j < |b| :: b[j] in a
  {
    if a != [] {
      var j :| 0 <= j < |b| && b[j] == a[0];
      var rest := b[..j] + b[j + 1..];
      forall i | 0 <= i < |a[1..]| ensures a[1..][i] in rest {
        var k :| 0 <= k < |b| && b[k] == a[i + 1];
        assert k != j;
        assert rest[if k < j then k else k - 1] == b[k];
      }
      AllFound(a[1..], rest);
      forall k | 0 <= k < |b| ensures b[k] in a {
        if k != j {
          assert rest[if k < j then k else k - 1] == b[k];
          assert b[k] in a[1..];
        }
      }
    }
  }

  lemma MirrorOfUnion(a: set<Change>, b: set<Change>)
    ensures Mirror(a + b) == Mirror(a) + Mirror(b)
  {
  }

  lemma {:induction false} ArrayMirrors(left: seq<Value>, right: seq<Value>, path: string, pol: Policies)
    ensures DiffArray(right, left, path, pol) == Mirror(DiffArray(left, right, path, pol))
    decreases HeightAll(left) + HeightAll(right), 1
  {
    var leftIds, rightIds := Identities(left, path, pol), Identities(right, path, pol);
    if AllUnique(leftIds) && AllUnique(rightIds) {
      ByIdentityMirrors(left, right, path, pol);
      ReorderedIsSymmetric(leftIds, rightIds, path, pol);
      var order := if Reordered(leftIds, rightIds, path, pol) then {Change(REORDERED, path + ".$order")} else {};
      assert Mirror(order) == order;
      MirrorOfUnion(order, DiffByIdentity(left, right, path, pol));
    } else {
      ByIndexMirrors(left, right, path, pol);
    }
  }
}
