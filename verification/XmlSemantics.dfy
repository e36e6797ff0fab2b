// The policy table of src/metadata/xml-semantics.ts, shared by both XML comparators:
// which repeated elements are collections, by which child elements their items are
// identified, and whether their order matters.
module XmlSemantics {
  import opened Options
  import opened StringKit

  datatype CollectionPolicy = CollectionPolicy(identityKeys: seq<string>, ordered: bool)

  // Each row holds the path of a collection below the root element.
  datatype Table = End | Row(path: string, policy: CollectionPolicy, rest: Table)

  // `registered` is hasXmlSemanticPolicy; an unregistered metadata type has no collections.
  datatype Policies = Policies(registered: bool, root: string, collections: Table)

  const GENERIC_KEYS: seq<string> := [
    "fullName", "name", "field", "object", "apexClass", "userPermission", "tab", "application",
    "layout", "recordType", "flow", "profile", "permissionSet", "label"]

  function Unordered(keys: seq<string>): CollectionPolicy { CollectionPolicy(keys, false) }

  function Ordered(keys: seq<string>): CollectionPolicy { CollectionPolicy(keys, true) }

  const PROFILE_COLLECTIONS: Table :=
    Row("applicationVisibilities", Unordered(["application"]),
    Row("classAccesses", Unordered(["apexClass"]),
    Row("customPermissions", Unordered(["name"]),
    Row("fieldPermissions", Unordered(["field"]), PROFILE_COLLECTIONS_FROM_FLOW))))

  const PROFILE_COLLECTIONS_FROM_FLOW: Table :=
    Row("flowAccesses", Unordered(["flow"]),
    Row("layoutAssignments", Unordered(["layout", "recordType"]),
    Row("objectPermissions", Unordered(["object"]), PROFILE_COLLECTIONS_FROM_RECORD_TYPE)))

  const PROFILE_COLLECTIONS_FROM_RECORD_TYPE: Table :=
    Row("recordTypeVisibilities", Unordered(["recordType"]),
    Row("tabVisibilities", Unordered(["tab"]),
    Row("userPermissions", Unordered(["name"]), End)))

  const PERMISSION_SET_COLLECTIONS: Table :=
    Row("applicationVisibilities", Unordered(["application"]),
    Row("classAccesses", Unordered(["apexClass"]),
    Row("customPermissions", Unordered(["name"]),
    Row("fieldPermissions", Unordered(["field"]), PERMISSION_SET_COLLECTIONS_FROM_FLOW))))

  const PERMISSION_SET_COLLECTIONS_FROM_FLOW: Table :=
    Row("flowAccesses", Unordered(["flow"]),
    Row("objectPermissions", Unordered(["object"]),
    Row("recordTypeVisibilities", Unordered(["recordType"]),
    Row("tabSettings", Unordered(["tab"]),
    Row("userPermissions", Unordered(["name"]), End)))))

  const LAYOUT_COLLECTIONS: Table :=
    Row("layoutSections", Ordered(["label"]),
    Row("layoutSections.layoutColumns", Ordered([]),
    Row("layoutSections.layoutColumns.layoutItems", Ordered(["field"]),
    Row("platformActionList.platformActionListItems", Ordered(["actionName"]),
    Row("relatedLists", Ordered(["relatedList"]), End)))))

  const CUSTOM_OBJECT_COLLECTIONS: Table :=
    Row("fields", Unordered(["fullName"]),
    Row("recordTypes", Unordered(["fullName"]),
    Row("validationRules", Unordered(["fullName"]),
    Row("businessProcesses", Unordered(["fullName"]),
    Row("compactLayouts", Unordered(["fullName"]), CUSTOM_OBJECT_COLLECTIONS_FROM_FIELD_SETS)))))

  const CUSTOM_OBJECT_COLLECTIONS_FROM_FIELD_SETS: Table :=
    Row("fieldSets", Unordered(["fullName"]),
    Row("indexes", Unordered(["fullName"]),
    Row("listViews", Unordered(["fullName"]),
    Row("sharingReasons", Unordered(["fullName"]),
    Row("webLinks", Unordered(["fullName"]),
    Row("fields.valueSet.valueSetDefinition.value", Ordered(["fullName"]),
    Row("fields.picklist.picklistValues", Ordered(["fullName"]), End)))))))

  const CUSTOM_FIELD_COLLECTIONS: Table :=
    Row("valueSet.valueSetDefinition.value", Ordered(["fullName"]),
    Row("picklist.picklistValues", Ordered(["fullName"]), End))

  const CUSTOM_LABELS_COLLECTIONS: Table :=
    Row("labels", Unordered(["fullName"]), End)

  function PoliciesFor(metadataType: Option<string>): Policies
  {
    if metadataType == Some("Profile") then Policies(true, "Profile", PROFILE_COLLECTIONS)
    else if metadataType == Some("PermissionSet") then Policies(true, "PermissionSet", PERMISSION_SET_COLLECTIONS)
    else if metadataType == Some("Layout") then Policies(true, "Layout", LAYOUT_COLLECTIONS)
    else if metadataType == Some("CustomObject") then Policies(true, "CustomObject", CUSTOM_OBJECT_COLLECTIONS)
    else if metadataType == Some("CustomField") then Policies(true, "CustomField", CUSTOM_FIELD_COLLECTIONS)
    else if metadataType == Some("CustomLabels") then Policies(true, "CustomLabels", CUSTOM_LABELS_COLLECTIONS)
    else Policies(false, "", End)
  }

  function Lookup(table: Table, path: string): Option<CollectionPolicy>
  {
    match table
    case End => None
    case Row(p, policy, rest) => if p == path then Some(policy) else Lookup(rest, path)
  }

  // Looks up a path after its bracketed item labels are removed.
  function FindPolicy(pol: Policies, xmlPath: string): Option<CollectionPolicy>
  {
    var path := StripBrackets(xmlPath);
    var prefix := pol.root + ".";
    if prefix <= path then Lookup(pol.collections, path[|prefix|..]) else None
  }

  // Order is ignored only where a policy says so.
  predicate IgnoresOrder(pol: Policies, xmlPath: string)
  {
    var policy := FindPolicy(pol, xmlPath);
    policy.Some? && !policy.value.ordered
  }

  function IdentityKeysAt(pol: Policies, xmlPath: string): seq<string>
  {
    var policy := FindPolicy(pol, xmlPath);
    if policy.Some? then policy.value.identityKeys else if pol.registered then [] else GENERIC_KEYS
  }

  // In the generic scheme the first key present is the whole identity.
  predicate FirstKeyOnly(pol: Policies, xmlPath: string)
  {
    FindPolicy(pol, xmlPath).None? && !pol.registered
  }

  // A path with at least two dots: it lies strictly below a child of the root.
  ghost predicate Deep(path: string)
  {
    exists i, j :: 0 <= i < j < |path| && path[i] == '.' && path[j] == '.'
  }

  predicate PlainKey(key: string)
  {
    '=' !in key && '|' !in key
  }

  // What both comparators rely on: an order-insensitive collection sits directly below
  // the root, and keys that are joined into one identity are plain element names.
  ghost predicate TopLevelUnordered(pol: Policies)
  {
    && '.' !in pol.root
    && (!pol.registered ==> pol.collections == End)
    && TableAtTop(pol.collections)
  }

  ghost predicate RowAtTop(path: string, policy: CollectionPolicy)
  {
    && (!policy.ordered ==> '.' !in path)
    && (|policy.identityKeys| > 1 ==> forall k | k in policy.identityKeys :: PlainKey(k))
  }

  ghost predicate TableAtTop(table: Table)
  {
    table.Row? ==> RowAtTop(table.path, table.policy) && TableAtTop(table.rest)
  }

  lemma AccessNames()
    ensures '.' !in "applicationVisibilities" && '.' !in "classAccesses"
    ensures '.' !in "customPermissions" && '.' !in "fieldPermissions"
  {
    assert '.' !in "applicationVisibilities";
    assert '.' !in "classAccesses";
    assert '.' !in "customPermissions";
    assert '.' !in "fieldPermissions";
  }

  lemma SharedNames()
    ensures '.' !in "flowAccesses" && '.' !in "objectPermissions"
    ensures '.' !in "recordTypeVisibilities" && '.' !in "userPermissions"
  {
    assert '.' !in "flowAccesses";
    assert '.' !in "objectPermissions";
    assert '.' !in "recordTypeVisibilities";
    assert '.' !in "userPermissions";
  }

  lemma ProfileFromRecordType()
    ensures TableAtTop(PROFILE_COLLECTIONS_FROM_RECORD_TYPE)
  {
    SharedNames();
    assert '.' !in "tabVisibilities";
  }

  lemma LayoutAssignmentsAtTop()
    ensures RowAtTop("layoutAssignments", Unordered(["layout", "recordType"]))
  {
    assert '.' !in "layoutAssignments";
    assert PlainKey("layout");
    assert PlainKey("recordType");
  }

  lemma ProfileFromFlow()
    ensures TableAtTop(PROFILE_COLLECTIONS_FROM_FLOW)
  {
    SharedNames();
    LayoutAssignmentsAtTop();
    ProfileFromRecordType();
  }

  lemma ProfileTable()
    ensures TableAtTop(PROFILE_COLLECTIONS)
  {
    AccessNames();
    ProfileFromFlow();
  }

  lemma PermissionSetFromFlow()
    ensures TableAtTop(PERMISSION_SET_COLLECTIONS_FROM_FLOW)
  {
    SharedNames();
    assert '.' !in "tabSettings";
  }

  lemma PermissionSetTable()
    ensures TableAtTop(PERMISSION_SET_COLLECTIONS)
  {
    AccessNames();
    PermissionSetFromFlow();
  }

  lemma CustomObjectFromFieldSets()
    ensures TableAtTop(CUSTOM_OBJECT_COLLECTIONS_FROM_FIELD_SETS)
  {
    assert '.' !in "fieldSets";
    assert '.' !in "indexes";
    assert '.' !in "listViews";
    assert '.' !in "sharingReasons";
    assert '.' !in "webLinks";
  }

  lemma CustomObjectTable()
    ensures TableAtTop(CUSTOM_OBJECT_COLLECTIONS)
  {
    assert '.' !in "fields";
    assert '.' !in "recordTypes";
    assert '.' !in "validationRules";
    assert '.' !in "businessProcesses";
    assert '.' !in "compactLayouts";
    CustomObjectFromFieldSets();
  }

  lemma OtherTables()
    ensures TableAtTop(LAYOUT_COLLECTIONS) && TableAtTop(CUSTOM_FIELD_COLLECTIONS) && TableAtTop(CUSTOM_LABELS_COLLECTIONS)
  {
    assert '.' !in "labels";
  }

  lemma TablesAtTop(metadataType: Option<string>)
    ensures TableAtTop(PoliciesFor(metadataType).collections)
  {
    ProfileTable();
    PermissionSetTable();
    CustomObjectTable();
    OtherTables();
  }

  lemma DotlessRoot(metadataType: Option<string>)
    ensures '.' !in PoliciesFor(metadataType).root
  {
    assert '.' !in "Profile";
    assert '.' !in "PermissionSet";
    assert '.' !in "Layout";
    assert '.' !in "CustomObject";
    assert '.' !in "CustomField";
    assert '.' !in "CustomLabels";
  }

  // Every policy the program registers has that shape.
  lemma RegisteredPoliciesAreTopLevel(metadataType: Option<string>)
    ensures TopLevelUnordered(PoliciesFor(metadataType))
  {
    TablesAtTop(metadataType);
    DotlessRoot(metadataType);
  }

  lemma {:induction false} LookupKeepsShape(table: Table, path: string)
    requires TableAtTop(table)
    ensures Lookup(table, path).Some? ==> RowAtTop(path, Lookup(table, path).value)
  {
    if table.Row? && table.path != path {
      LookupKeepsShape(table.rest, path);
    }
  }

  lemma SecondDot(root: string, path: string)
    requires '.' !in root && root + "." <= path && Deep(path)
    ensures '.' in path[|root| + 1..]
  {
    var i, j :| 0 <= i < j < |path| && path[i] == '.' && path[j] == '.';
    assert forall k | 0 <= k < |root| :: path[k] == root[k];
    assert path[|root| + 1..][j - |root| - 1] == '.';
  }

  // Below the top level no policy can drop the order, whatever text the labels contain.
  lemma DeepPathsKeepOrder(pol: Policies, xmlPath: string)
    requires TopLevelUnordered(pol) && Deep(StripBrackets(xmlPath))
    ensures !IgnoresOrder(pol, xmlPath)
  {
    var path := StripBrackets(xmlPath);
    if pol.root + "." <= path {
      SecondDot(pol.root, path);
      LookupKeepsShape(pol.collections, path[|pol.root| + 1..]);
    }
  }
}
