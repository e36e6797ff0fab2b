// Apex classes are moved directly below their `classes` directory before they are compared
// (flattenedApexEntries of src/git/git-materializer.ts).
module ApexFlattening {
  import opened Options
  import opened GitTree

  // `roots` are the package directories in the order they are tried (`.` is the empty path),
  // `directories` the names of metadata directories. Case folding with NFC of a class name and
  // the ignore rules are functions outside this model.
  datatype Layout = Layout(
    roots: seq<Path>, directories: set<string>, ignored: Path -> bool, fold: string -> string)

  const CLASS := ".cls"
  const CLASS_META := ".cls-meta.xml"

  predicate EndsWith(name: string, suffix: string)
  {
    |suffix| <= |name| && name[|name| - |suffix|..] == suffix
  }

  predicate ApexFile(name: string) { EndsWith(name, CLASS) || EndsWith(name, CLASS_META) }

  // The class a file belongs to.
  function ClassName(name: string): string
    requires ApexFile(name)
  {
    if EndsWith(name, CLASS) then name[..|name| - |CLASS|] else name[..|name| - |CLASS_META|]
  }

  function Directory(p: Path): Path requires p != [] { p[..|p| - 1] }
  function FileName(p: Path): string requires p != [] { p[|p| - 1] }

  // The first metadata directory at or after `from`; |p| when there is none.
  function FirstMetadata(p: Path, from: nat, directories: set<string>): (at: nat)
    requires from <= |p|
    ensures from <= at <= |p| && (at < |p| ==> p[at] in directories)
    ensures forall k | from <= k < at :: p[k] !in directories
    decreases |p| - from
  {
    if from == |p| || p[from] in directories then from else FirstMetadata(p, from + 1, directories)
  }

  // The package directory applies to the path: its first metadata directory is `classes`, and
  // an Apex file lies somewhere below that.
  predicate Applies(p: Path, root: Path, layout: Layout)
  {
    Below(root, p)
    && var at := FirstMetadata(p, |root|, layout.directories);
    at < |p| - 1 && p[at] == "classes" && ApexFile(FileName(p))
  }

  function ApplyingRoot(p: Path, roots: seq<Path>, layout: Layout): (r: Option<Path>)
    ensures r.Some? ==> r.value in roots && Applies(p, r.value, layout)
    ensures r.None? <==> forall root | root in roots :: !Applies(p, root, layout)
  {
    if roots == [] then None
    else if Applies(p, roots[0], layout) then Some(roots[0])
    else ApplyingRoot(p, roots[1..], layout)
  }

  // The package directory that decides about a path.
  function Decider(p: Path, layout: Layout): (r: Option<Path>)
    ensures r.Some? ==> Applies(p, r.value, layout)
  {
    if layout.ignored(p) then None else ApplyingRoot(p, layout.roots, layout)
  }

  function Moved(p: Path, root: Path, layout: Layout): (q: Path)
    requires Applies(p, root, layout)
    ensures q != [] && FileName(q) == FileName(p)
  {
    p[..FirstMetadata(p, |root|, layout.directories) + 1] + [FileName(p)]
  }

  function OutputPath(p: Path, layout: Layout): Path
  {
    var root := Decider(p, layout);
    if root.Some? then Moved(p, root.value, layout) else p
  }

  // ---- Where a file goes ----

  // Below the package directory the first metadata directory of the path is a `classes`
  // directory at `at`, with an Apex file below it.
  predicate Splits(p: Path, root: Path, at: nat, layout: Layout)
  {
    && root <= p && |root| <= at && at + 1 < |p| && p[at] == "classes" && "classes" in layout.directories
    && (forall k | |root| <= k < at :: p[k] !in layout.directories)
    && (EndsWith(p[|p| - 1], ".cls") || EndsWith(p[|p| - 1], ".cls-meta.xml"))
  }

  ghost predicate Fits(p: Path, root: Path, layout: Layout) { exists at: nat :: Splits(p, root, at, layout) }

  lemma AppliesMeansFits(p: Path, root: Path, layout: Layout)
    ensures Applies(p, root, layout) <==> Fits(p, root, layout)
    ensures Applies(p, root, layout) ==> Splits(p, root, FirstMetadata(p, |root|, layout.directories), layout)
  {
    if Applies(p, root, layout) { assert Splits(p, root, FirstMetadata(p, |root|, layout.directories), layout); }
    if Fits(p, root, layout) {
      var at: nat :| Splits(p, root, at, layout);
      assert FirstMetadata(p, |root|, layout.directories) == at;
    }
  }

  // The first package directory that fits decides.
  ghost predicate Decides(p: Path, r: nat, layout: Layout)
  {
    r < |layout.roots| && Fits(p, layout.roots[r], layout) && forall s | 0 <= s < r :: !Fits(p, layout.roots[s], layout)
  }

  lemma {:induction false} FirstThatFits(p: Path, roots: seq<Path>, layout: Layout) returns (r: nat)
    requires ApplyingRoot(p, roots, layout).Some?
    ensures r < |roots| && roots[r] == ApplyingRoot(p, roots, layout).value && Fits(p, roots[r], layout)
    ensures forall s | 0 <= s < r :: !Fits(p, roots[s], layout)
  {
    AppliesMeansFits(p, roots[0], layout);
    if Applies(p, roots[0], layout) {
      r := 0;
    } else {
      r := FirstThatFits(p, roots[1..], layout);
      forall s | 0 <= s < r + 1 ensures !Fits(p, roots[s], layout) {
        if s > 0 { assert roots[s] == roots[1..][s - 1]; }
      }
      r := r + 1;
    }
  }

  // A file stays where it is exactly if it is ignored or no package directory fits; otherwise
  // it goes directly below the `classes` directory that the first fitting one leads to.
  lemma DestinationExactly(p: Path, layout: Layout)
    ensures layout.ignored(p) || (forall r | 0 <= r < |layout.roots| :: !Fits(p, layout.roots[r], layout)) ==> OutputPath(p, layout) == p
    ensures !layout.ignored(p) ==> forall r: nat, at: nat | Decides(p, r, layout) && Splits(p, layout.roots[r], at, layout) ::
      OutputPath(p, layout) == p[..at + 1] + [p[|p| - 1]]
  {
    if Decider(p, layout).Some? {
      var r := FirstThatFits(p, layout.roots, layout);
      assert Fits(p, layout.roots[r], layout);
    }
    forall r: nat, at: nat | !layout.ignored(p) && Decides(p, r, layout) && Splits(p, layout.roots[r], at, layout)
      ensures OutputPath(p, layout) == p[..at + 1] + [p[|p| - 1]]
    {
      AppliesMeansFits(p, layout.roots[r], layout);
      assert layout.roots[r] in layout.roots;
      var first := FirstThatFits(p, layout.roots, layout);
      assert first == r;
      assert FirstMetadata(p, |layout.roots[r]|, layout.directories) == at;
    }
  }

  // ---- Moving twice is moving once ----

  lemma MovedStaysPut(p: Path, root: Path, layout: Layout)
    requires Applies(p, root, layout)
    ensures var q := Moved(p, root, layout); Applies(q, root, layout) && Moved(q, root, layout) == q
  {
    var at, q := FirstMetadata(p, |root|, layout.directories), Moved(p, root, layout);
    assert forall k | |root| <= k <= at :: q[k] == p[k];
    assert FirstMetadata(q, |root|, layout.directories) == at;
    assert q[..at + 1] == p[..at + 1];
    assert root <= q by { assert root == p[..|root|] == q[..|root|]; }
  }

  // A package directory that says nothing about a path says nothing about where it is moved.
  lemma NothingNewApplies(p: Path, root: Path, other: Path, layout: Layout)
    requires Applies(p, root, layout) && Applies(Moved(p, root, layout), other, layout)
    ensures Applies(p, other, layout)
  {
    var at, q := FirstMetadata(p, |root|, layout.directories), Moved(p, root, layout);
    var place := FirstMetadata(q, |other|, layout.directories);
    assert place <= at && other <= q[..at + 1] == p[..at + 1];
    assert forall k | |other| <= k <= place :: q[k] == p[k];
    assert FirstMetadata(p, |other|, layout.directories) == place;
    assert other <= p by { assert other == q[..|other|] == p[..|other|]; }
  }

  lemma {:induction false} SameRootDecides(p: Path, roots: seq<Path>, layout: Layout)
    requires ApplyingRoot(p, roots, layout).Some?
    ensures var root := ApplyingRoot(p, roots, layout).value;
      ApplyingRoot(Moved(p, root, layout), roots, layout) == Some(root)
  {
    var root := ApplyingRoot(p, roots, layout).value;
    MovedStaysPut(p, root, layout);
    if !Applies(p, roots[0], layout) {
      SameRootDecides(p, roots[1..], layout);
      if Applies(Moved(p, root, layout), roots[0], layout) { NothingNewApplies(p, root, roots[0], layout); }
    }
  }

  // Whatever the order of the package directories.
  lemma FlatteningTwice(p: Path, layout: Layout)
    ensures OutputPath(OutputPath(p, layout), layout) == OutputPath(p, layout)
  {
    var root := Decider(p, layout);
    if root.Some? {
      SameRootDecides(p, layout.roots, layout);
      MovedStaysPut(p, root.value, layout);
    }
  }

  // ---- A class and its metadata file stay together ----

  lemma SameRuleInDirectory(p: Path, q: Path, root: Path, layout: Layout)
    requires p != [] && q != [] && Directory(p) == Directory(q) && ApexFile(FileName(p)) && ApexFile(FileName(q))
    requires Applies(p, root, layout)
    ensures Applies(q, root, layout)
    ensures Directory(Moved(p, root, layout)) == Directory(Moved(q, root, layout))
  {
    var at := FirstMetadata(p, |root|, layout.directories);
    assert |p| == |q| && forall k | 0 <= k < |p| - 1 :: p[k] == Directory(p)[k] == q[k];
    assert FirstMetadata(q, |root|, layout.directories) == at;
    assert root <= q by { assert root == p[..|root|] == q[..|root|]; }
    assert p[..at + 1] == q[..at + 1];
  }

  lemma {:induction false} SameRootInDirectory(p: Path, q: Path, roots: seq<Path>, layout: Layout)
    requires p != [] && q != [] && Directory(p) == Directory(q) && ApexFile(FileName(p)) && ApexFile(FileName(q))
    ensures ApplyingRoot(p, roots, layout) == ApplyingRoot(q, roots, layout)
  {
    if roots != [] {
      SameRootInDirectory(p, q, roots[1..], layout);
      if Applies(p, roots[0], layout) { SameRuleInDirectory(p, q, roots[0], layout); }
      if Applies(q, roots[0], layout) { SameRuleInDirectory(q, p, roots[0], layout); }
    }
  }

  lemma ClassAndMetadataStayTogether(p: Path, q: Path, layout: Layout)
    requires p != [] && q != [] && Directory(p) == Directory(q) && ApexFile(FileName(p)) && ApexFile(FileName(q))
    requires layout.ignored(p) <==> layout.ignored(q)
    ensures OutputPath(p, layout) != [] && OutputPath(q, layout) != []
    ensures Directory(OutputPath(p, layout)) == Directory(OutputPath(q, layout))
    ensures FileName(OutputPath(p, layout)) == FileName(p)
  {
    SameRootInDirectory(p, q, layout.roots, layout);
    var root := Decider(p, layout);
    if root.Some? { SameRuleInDirectory(p, q, root.value, layout); }
  }

  // ---- The whole list ----

  // A class is known by its directory and name; its folded name must not come from two places.
  function Origin(p: Path): Path
    requires p != [] && ApexFile(FileName(p))
  {
    Directory(p) + [ClassName(FileName(p))]
  }

  function Key(p: Path, layout: Layout): string
    requires p != [] && ApexFile(FileName(p))
  {
    layout.fold(ClassName(FileName(p)))
  }

  predicate Subject(p: Path, layout: Layout) { Decider(p, layout).Some? }

  // The class names of the first `n` entries, each with its origin.
  function Claims(entries: seq<Entry>, n: nat, layout: Layout): set<(string, Path)>
    requires n <= |entries|
  {
    if n == 0 then {}
    else
      var p := entries[n - 1].path;
      Claims(entries, n - 1, layout) + if Subject(p, layout) then {(Key(p, layout), Origin(p))} else {}
  }

  ghost predicate OneOrigin(entries: seq<Entry>, layout: Layout)
  {
    var claims := Claims(entries, |entries|, layout);
    forall x, y | x in claims && y in claims :: x.0 == y.0 ==> x.1 == y.1
  }

  lemma {:induction false} ClaimsGrow(entries: seq<Entry>, m: nat, n: nat, layout: Layout)
    requires m <= n <= |entries|
    ensures Claims(entries, m, layout) <= Claims(entries, n, layout)
  {
    if m < n { ClaimsGrow(entries, m, n - 1, layout); }
  }

  lemma ClaimOf(entries: seq<Entry>, i: nat, layout: Layout)
    requires i < |entries| && Subject(entries[i].path, layout)
    ensures (Key(entries[i].path, layout), Origin(entries[i].path)) in Claims(entries, |entries|, layout)
  {
    ClaimsGrow(entries, i + 1, |entries|, layout);
  }

  function Outputs(entries: seq<Entry>, layout: Layout): (r: seq<Entry>)
    ensures |r| == |entries|
    ensures forall i | 0 <= i < |entries| :: r[i] == entries[i].(path := OutputPath(entries[i].path, layout))
  {
    seq(|entries|, i requires 0 <= i < |entries| => entries[i].(path := OutputPath(entries[i].path, layout)))
  }

  ghost predicate Flattens(entries: seq<Entry>, layout: Layout, rules: Rules)
  {
    OneOrigin(entries, layout) && Acceptable(Outputs(entries, layout), rules, false)
  }

  // The `classOrigins` map that holds these claims.
  ghost predicate Holds(origins: map<string, Path>, claims: set<(string, Path)>)
  {
    forall key, origin :: (key in origins && origins[key] == origin) <==> (key, origin) in claims
  }

  method FirstDirectory(p: Path, from: nat, directories: set<string>) returns (at: nat)
    requires from <= |p|
    ensures at == FirstMetadata(p, from, directories)
  {
    at := from;
    while at < |p| && p[at] !in directories
      invariant from <= at <= |p|
      invariant forall k | from <= k < at :: p[k] !in directories
    {
      at := at + 1;
    }
  }

  // One entry: where it goes, and its class when a package directory moves it.
  method FlattenPath(p: Path, layout: Layout) returns (output: Path, subject: bool)
    ensures output == OutputPath(p, layout)
    ensures subject == Subject(p, layout)
  {
    if layout.ignored(p) { return p, false; }
    var k := 0;
    while k < |layout.roots|
      invariant k <= |layout.roots|
      invariant ApplyingRoot(p, layout.roots, layout) == ApplyingRoot(p, layout.roots[k..], layout)
    {
      var root := layout.roots[k];
      if Below(root, p) {
        var at := FirstDirectory(p, |root|, layout.directories);
        if at < |p| - 1 && p[at] == "classes" && ApexFile(FileName(p)) {
          return p[..at + 1] + [FileName(p)], true;
        }
      }
      k := k + 1;
    }
    return p, false;
  }

  // The entry's place in the map of origins; false is a class with two origins.
  method RecordOrigin(origins: map<string, Path>, entries: seq<Entry>, n: nat, layout: Layout, subject: bool)
    returns (ok: bool, updated: map<string, Path>)
    requires n < |entries| && Holds(origins, Claims(entries, n, layout))
    requires subject == Subject(entries[n].path, layout)
    ensures ok ==> Holds(updated, Claims(entries, n + 1, layout))
    ensures !ok ==> !OneOrigin(entries, layout)
  {
    if !subject { return true, origins; }
    var p := entries[n].path;
    var key := Key(p, layout);
    if key in origins && origins[key] != Origin(p) {
      ClaimsGrow(entries, n, |entries|, layout);
      assert (key, origins[key]) in Claims(entries, n, layout);
      ClaimOf(entries, n, layout);
      return false, origins;
    }
    return true, origins[key := Origin(p)];
  }

  method MapEntries(entries: seq<Entry>, layout: Layout) returns (r: Option<seq<Entry>>)
    ensures r.Some? <==> OneOrigin(entries, layout)
    ensures r.Some? ==> r.value == Outputs(entries, layout)
  {
    var origins: map<string, Path> := map[];
    var outputs: seq<Entry> := [];
    var n := 0;
    while n < |entries|
      invariant n == |outputs| <= |entries|
      invariant forall i | 0 <= i < n :: outputs[i] == Outputs(entries, layout)[i]
      invariant Holds(origins, Claims(entries, n, layout))
    {
      var p := entries[n].path;
      var output, subject := FlattenPath(p, layout);
      var ok: bool;
      ok, origins := RecordOrigin(origins, entries, n, layout, subject);
      if !ok { return None; }
      outputs := outputs + [entries[n].(path := output)];
      n := n + 1;
    }
    r := Some(outputs);
  }

  // The list is accepted exactly when every folded class name has one origin and the destination
  // paths pass the collision check; it then gives every entry with its destination.
  method FlattenedApexEntries(entries: seq<Entry>, layout: Layout, rules: Rules) returns (r: Option<seq<Entry>>)
    requires forall i | 0 <= i < |entries| :: entries[i].path != []
    ensures r.Some? <==> Flattens(entries, layout, rules)
    ensures r.Some? ==> r.value == Outputs(entries, layout)
  {
    var outputs := MapEntries(entries, layout);
    if outputs.None? { return None; }
    OutputsAreNotEmpty(entries, layout);
    RelativeToTop(outputs.value);
    var checked := SelectedGitEntries(outputs.value, [], false, rules);
    r := if checked.Some? then outputs else None;
  }

  lemma OutputsAreNotEmpty(entries: seq<Entry>, layout: Layout)
    requires forall i | 0 <= i < |entries| :: entries[i].path != []
    ensures forall i | 0 <= i < |entries| :: Outputs(entries, layout)[i].path != []
  {
  }

  // Below the top of the tree every path is itself.
  lemma {:induction false} RelativeToTop(entries: seq<Entry>)
    requires forall i | 0 <= i < |entries| :: entries[i].path != []
    ensures Relative(entries, []) == entries
  {
    if entries != [] {
      var last := |entries| - 1;
      RelativeToTop(entries[..last]);
      assert entries[last].path[0..] == entries[last].path;
      assert entries == entries[..last] + [entries[last]];
    }
  }

  // ---- What an accepted list looks like ----

  // No two files meet at a destination on any platform, and no destination is a directory of
  // another one.
  lemma DestinationsAreDistinct(entries: seq<Entry>, layout: Layout, rules: Rules, i: nat, j: nat, b: nat)
    requires Flattens(entries, layout, rules) && i < |entries| && j < |entries| && entries[i].path != []
    requires var q := OutputPath(entries[j].path, layout); 1 <= b <= |q| && (i != j || b < |q|)
    ensures rules.canonical(OutputPath(entries[i].path, layout))
         != rules.canonical(OutputPath(entries[j].path, layout)[..b])
  {
    var paths := Paths(Outputs(entries, layout));
    var p, q := paths[i], paths[j];
    assert p[..|p|] == p && q == OutputPath(entries[j].path, layout);
    if rules.canonical(p[..|p|]) == rules.canonical(q[..b]) {
      AcceptedNamesAreInjective(paths, rules.canonical, i, |p|, j, b);
    }
  }

  // A moved class has one source file and one metadata file at most.
  lemma OneClassPerName(entries: seq<Entry>, layout: Layout, rules: Rules, i: nat, j: nat)
    requires Flattens(entries, layout, rules) && i < |entries| && j < |entries|
    requires Subject(entries[i].path, layout) && Subject(entries[j].path, layout)
    requires Key(entries[i].path, layout) == Key(entries[j].path, layout)
    ensures Directory(entries[i].path) == Directory(entries[j].path)
    ensures ClassName(FileName(entries[i].path)) == ClassName(FileName(entries[j].path))
    ensures Directory(Outputs(entries, layout)[i].path) == Directory(Outputs(entries, layout)[j].path)
  {
    var p, q := entries[i].path, entries[j].path;
    ClaimOf(entries, i, layout);
    ClaimOf(entries, j, layout);
    assert Origin(p) == Origin(q);
    assert Directory(p) == Origin(p)[..|Origin(p)| - 1] && Directory(q) == Origin(q)[..|Origin(q)| - 1];
    assert ClassName(FileName(p)) == Origin(p)[|Origin(p)| - 1];
    assert ClassName(FileName(q)) == Origin(q)[|Origin(q)| - 1];
    ClassAndMetadataStayTogether(p, q, layout);
  }

  lemma OutputsTwice(entries: seq<Entry>, layout: Layout)
    ensures Outputs(Outputs(entries, layout), layout) == Outputs(entries, layout)
  {
    forall i | 0 <= i < |entries| ensures Outputs(Outputs(entries, layout), layout)[i] == Outputs(entries, layout)[i] {
      FlatteningTwice(entries[i].path, layout);
    }
  }

  lemma {:induction false} Claimant(entries: seq<Entry>, n: nat, layout: Layout, claim: (string, Path)) returns (i: nat)
    requires n <= |entries| && claim in Claims(entries, n, layout)
    ensures i < n && Subject(entries[i].path, layout)
    ensures claim == (Key(entries[i].path, layout), Origin(entries[i].path))
  {
    if claim in Claims(entries, n - 1, layout) { i := Claimant(entries, n - 1, layout, claim); } else { i := n - 1; }
  }

  // A subject among the destinations was a subject before, with the same file name.
  lemma SubjectsComeFromSubjects(p: Path, layout: Layout)
    requires Subject(OutputPath(p, layout), layout)
    ensures Subject(p, layout) && Key(OutputPath(p, layout), layout) == Key(p, layout)
  {
  }

  // Flattening what was flattened is accepted again and moves nothing.
  lemma FlatteningAgain(entries: seq<Entry>, layout: Layout, rules: Rules)
    requires Flattens(entries, layout, rules)
    ensures Flattens(Outputs(entries, layout), layout, rules)
    ensures Outputs(Outputs(entries, layout), layout) == Outputs(entries, layout)
  {
    OutputsTwice(entries, layout);
    var outputs := Outputs(entries, layout);
    forall x, y | x in Claims(outputs, |outputs|, layout) && y in Claims(outputs, |outputs|, layout) && x.0 == y.0
      ensures x.1 == y.1
    {
      var i := Claimant(outputs, |outputs|, layout, x);
      var j := Claimant(outputs, |outputs|, layout, y);
      SubjectsComeFromSubjects(entries[i].path, layout);
      SubjectsComeFromSubjects(entries[j].path, layout);
      OneClassPerName(entries, layout, rules, i, j);
    }
  }
}
