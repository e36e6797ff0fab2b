// The recursive comparison of src/metadata/xml-diff.ts over parsed values, and what an
// empty list of changes means: equal trees, except that an order-insensitive, uniquely
// keyed collection directly below the root is compared as a bag of items.
module XmlDiff {
  import opened Options
  import opened StringKit
  import opened XmlSemantics

  // Property names of a parsed element: "@_name" attributes, "#text", and child elements.
  datatype Key = Attribute(name: string) | TextContent | Child(name: string)

  datatype Value =
    | Undefined
    | Text(text: string)
    | Record(fields: map<Key, Value>)
    | Array(items: seq<Value>)

  datatype ChangeKind = ADDED | REMOVED | MODIFIED | REORDERED

  datatype Change = Change(kind: ChangeKind, path: string)

  function RenderKey(k: Key): string
  {
    match k
    case Attribute(name) => "@_" + name
    case TextContent => "#text"
    case Child(name) => name
  }

  predicate Item(v: Value) { v.Text? || v.Record? }

  // The shape the parser produces: an array stands for two or more same-named siblings,
  // and XML names hold no brackets.
  ghost predicate Parsed(v: Value)
  {
    match v
    case Record(f) =>
      forall k | k in f :: f[k] != Undefined && Bracketless(RenderKey(k)) && Parsed(f[k])
    case Array(s) => |s| >= 2 && ParsedItems(s)
    case _ => true
  }

  ghost predicate ParsedItems(s: seq<Value>)
  {
    forall i | 0 <= i < |s| :: Item(s[i]) && Parsed(s[i])
  }

  // ---- removeFormattingWhitespace ----

  predicate IsFormatting(k: Key, v: Value)
  {
    k.TextContent? && v.Text? && IsBlank(v.text)
  }

  function RemoveFormattingWhitespace(v: Value): (r: Value)
    ensures Item(v) ==> Item(r)
    ensures v.Undefined? <==> r.Undefined?
    ensures v.Array? <==> r.Array?
  {
    match v
    case Record(f) => Record(map k | k in f && !IsFormatting(k, f[k]) :: RemoveFormattingWhitespace(f[k]))
    case Array(s) => Array(seq(|s|, i requires 0 <= i < |s| => RemoveFormattingWhitespace(s[i])))
    case _ => v
  }

  lemma {:induction false} RemovalKeepsShape(v: Value)
    requires Parsed(v)
    ensures Parsed(RemoveFormattingWhitespace(v))
  {
    match v
    case Record(f) =>
      forall k | k in f ensures Parsed(RemoveFormattingWhitespace(f[k])) { RemovalKeepsShape(f[k]); }
    case Array(s) =>
      forall i | 0 <= i < |s| ensures Parsed(RemoveFormattingWhitespace(s[i])) { RemovalKeepsShape(s[i]); }
    case _ =>
  }

  // ---- Identities ----

  function IdentityPairs(v: Value, keys: seq<string>): seq<(string, string)>
  {
    if keys == [] then []
    else
      var rest := IdentityPairs(v, keys[1..]);
      if v.Record? && Child(keys[0]) in v.fields && v.fields[Child(keys[0])].Text?
      then [(keys[0], v.fields[Child(keys[0])].text)] + rest
      else rest
  }

  function JoinPairs(pairs: seq<(string, string)>): string
  {
    if pairs == [] then ""
    else if |pairs| == 1 then pairs[0].0 + "=" + pairs[0].1
    else pairs[0].0 + "=" + pairs[0].1 + "|" + JoinPairs(pairs[1..])
  }

  function IdentityOf(pairs: seq<(string, string)>, firstKeyOnly: bool): Option<string>
  {
    if pairs == [] then None
    else Some(JoinPairs(if firstKeyOnly then pairs[..1] else pairs))
  }

  function FindIdentity(v: Value, keys: seq<string>, firstKeyOnly: bool): Option<string>
  {
    IdentityOf(IdentityPairs(v, keys), firstKeyOnly)
  }

  function Identities(items: seq<Value>, path: string, pol: Policies): (ids: seq<Option<string>>)
    ensures |ids| == |items|
  {
    seq(|items|, i requires 0 <= i < |items| =>
      FindIdentity(items[i], IdentityKeysAt(pol, path), FirstKeyOnly(pol, path)))
  }

  predicate AllUnique(ids: seq<Option<string>>)
  {
    && (forall i | 0 <= i < |ids| :: ids[i].Some?)
    && (forall i, j | 0 <= i < j < |ids| :: ids[i] != ids[j])
  }

  function ByIdentity(items: seq<Value>, ids: seq<Option<string>>, id: Option<string>): (v: Value)
    requires |items| == |ids|
    ensures id in ids <==> exists i :: 0 <= i < |ids| && ids[i] == id && v == items[i]
    ensures id !in ids ==> v == Undefined
  {
    if items == [] then Undefined
    else if ids[0] == id then items[0]
    else
      var v := ByIdentity(items[1..], ids[1..], id);
      assert ids == [ids[0]] + ids[1..];
      assert id in ids ==> exists i :: 0 <= i < |ids[1..]| && ids[1..][i] == id && v == items[1..][i] && ids[i + 1] == id && items[i + 1] == v;
      v
  }

  // ---- Paths ----

  predicate EndsWithBracket(path: string)
  {
    path != "" && path[|path| - 1] == ']'
  }

  function AppendPath(path: string, key: string): string
  {
    if path == "" then key else path + "." + key
  }

  function ItemPath(path: string, lbl: string): (p: string)
    ensures EndsWithBracket(p)
  {
    path + "[" + lbl + "]"
  }

  function Decimal(n: nat): string
  {
    if n < 10 then ["0123456789"[n]] else Decimal(n / 10) + ["0123456789"[n % 10]]
  }

  // An object is labelled with its generic identity when both sides share it.
  function ObjectPath(left: Value, right: Value, path: string): string
  {
    var id := FindIdentity(left, GENERIC_KEYS, true);
    if '.' in path && !EndsWithBracket(path) && id.Some? && id == FindIdentity(right, GENERIC_KEYS, true)
    then ItemPath(path, id.value) else path
  }

  // ---- Termination measure ----

  ghost function MaxOf(s: set<nat>): (m: nat)
    ensures forall x | x in s :: x <= m
  {
    if s == {} then 0
    else
      var x :| x in s;
      var rest := MaxOf(s - {x});
      assert s == (s - {x}) + {x};
      if x < rest then rest else x
  }

  ghost function Height(v: Value): nat
    decreases v, 1
  {
    match v
    case Undefined => 0
    case Text(_) => 1
    case Record(f) => 1 + MaxOf(FieldHeightsOf(v))
    case Array(s) => 1 + HeightAll(s)
  }

  ghost function FieldHeightsOf(v: Value): (hs: set<nat>)
    requires v.Record?
    ensures forall k | k in v.fields :: Height(v.fields[k]) in hs
    decreases v, 0
  {
    set k | k in v.fields.Keys :: Height(v.fields[k])
  }

  ghost function HeightAll(s: seq<Value>): (h: nat)
    ensures forall i | 0 <= i < |s| :: Height(s[i]) <= h
    decreases s, 0
  {
    if s == [] then 0
    else
      var rest := HeightAll(s[1..]);
      assert forall i | 0 < i < |s| :: s[i] == s[1..][i - 1];
      if rest < Height(s[0]) then Height(s[0]) else rest
  }

  lemma FieldHeights(v: Value)
    requires v.Record?
    ensures forall k :: Height(Field(v, k)) < Height(v)
  {
    assert forall k | k in v.fields :: Height(v.fields[k]) in FieldHeightsOf(v);
  }

  lemma CollectionHeight(v: Value)
    ensures HeightAll(AsCollection(v)) <= Height(v)
    ensures v.Array? ==> HeightAll(AsCollection(v)) < Height(v)
  {
    if Item(v) {
      assert [v][1..] == [];
    }
  }

  // ---- diffValue and diffArray ----

  function Field(v: Value, k: Key): Value
    requires v.Record?
  {
    if k in v.fields then v.fields[k] else Undefined
  }

  function AsCollection(v: Value): seq<Value>
  {
    match v
    case Undefined => []
    case Array(s) => s
    case _ => [v]
  }

  function At(items: seq<Value>, i: nat): Value
  {
    if i < |items| then items[i] else Undefined
  }

  // A keyed collection that the parser rendered as a single value is still a collection.
  predicate IsKeyedCollection(path: string, pol: Policies)
  {
    && !EndsWithBracket(path)
    && FindPolicy(pol, path).Some?
    && |FindPolicy(pol, path).value.identityKeys| > 0
  }

  function DiffValue(left: Value, right: Value, path: string, pol: Policies): set<Change>
    decreases Height(left) + Height(right), if EndsWithBracket(path) then 0 else 2, 1
  {
    if left == right && (left.Undefined? || left.Text?) then {}
    else if left.Array? || right.Array? || IsKeyedCollection(path, pol) then
      CollectionHeight(left);
      CollectionHeight(right);
      DiffArray(AsCollection(left), AsCollection(right), path, pol)
    else if left.Undefined? then {Change(ADDED, path)}
    else if right.Undefined? then {Change(REMOVED, path)}
    else if left.Record? && right.Record? then
      DiffFields(left, right, path, pol)
    else {Change(MODIFIED, path)}
  }

  function DiffFields(left: Value, right: Value, path: string, pol: Policies): set<Change>
    requires left.Record? && right.Record?
    decreases Height(left) + Height(right), if EndsWithBracket(path) then 0 else 2, 0
  {
    var objectPath := ObjectPath(left, right, path);
    FieldHeights(left);
    FieldHeights(right);
    set k, c | k in left.fields.Keys + right.fields.Keys
      && c in DiffValue(Field(left, k), Field(right, k), AppendPath(objectPath, RenderKey(k)), pol) :: c
  }

  function DiffArray(left: seq<Value>, right: seq<Value>, path: string, pol: Policies): set<Change>
    decreases HeightAll(left) + HeightAll(right), 1
  {
    var leftIds, rightIds := Identities(left, path, pol), Identities(right, path, pol);
    if !(AllUnique(leftIds) && AllUnique(rightIds)) then DiffByIndex(left, right, path, pol)
    else
      (if Reordered(leftIds, rightIds, path, pol) then {Change(REORDERED, path + ".$order")} else {})
      + DiffByIdentity(left, right, path, pol)
  }

  predicate Reordered(leftIds: seq<Option<string>>, rightIds: seq<Option<string>>, path: string, pol: Policies)
  {
    && !IgnoresOrder(pol, path)
    && |leftIds| == |rightIds|
    && (forall i | 0 <= i < |leftIds| :: leftIds[i] in rightIds)
    && leftIds != rightIds
  }

  function DiffByIndex(left: seq<Value>, right: seq<Value>, path: string, pol: Policies): set<Change>
    decreases HeightAll(left) + HeightAll(right), 0, 2
  {
    AtHeights(left);
    AtHeights(right);
    set i: nat, c | i < Longer(left, right)
      && c in DiffValue(At(left, i), At(right, i), ItemPath(path, Decimal(i)), pol) :: c
  }

  function DiffByIdentity(left: seq<Value>, right: seq<Value>, path: string, pol: Policies): set<Change>
    requires AllUnique(Identities(left, path, pol)) && AllUnique(Identities(right, path, pol))
    decreases HeightAll(left) + HeightAll(right), 0, 2
  {
    var leftIds, rightIds := Identities(left, path, pol), Identities(right, path, pol);
    ByIdentityHeights(left, leftIds);
    ByIdentityHeights(right, rightIds);
    set id, c | id in leftIds + rightIds
      && c in DiffValue(ByIdentity(left, leftIds, id), ByIdentity(right, rightIds, id),
                        ItemPath(path, id.value), pol) :: c
  }

  function Longer(left: seq<Value>, right: seq<Value>): nat
  {
    if |left| < |right| then |right| else |left|
  }

  lemma AtHeights(items: seq<Value>)
    ensures forall i: nat :: Height(At(items, i)) <= HeightAll(items)
  {
  }

  lemma ByIdentityHeights(items: seq<Value>, ids: seq<Option<string>>)
    requires |items| == |ids|
    ensures forall id :: Height(ByIdentity(items, ids, id)) <= HeightAll(items)
  {
    forall id ensures Height(ByIdentity(items, ids, id)) <= HeightAll(items) {
      if id in ids {
        var i :| 0 <= i < |ids| && ids[i] == id && ByIdentity(items, ids, id) == items[i];
      }
    }
  }
}
