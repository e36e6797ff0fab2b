// Which Git tree entries may be extracted, and where Apex classes go
// (selectedGitEntries of src/git/git-project-validator.ts, flattenedApexEntries of
// src/git/git-materializer.ts). Paths are lists of segments.
module GitTree {
  import opened Options
  import opened StringKit

  type Path = seq<string>

  // `regular` stands for a blob with an ordinary file mode.
  datatype Entry = Entry(path: Path, regular: bool)

  // The platform-independent form of a name (NFC, lower case), the segment rules and the
  // excluded names are functions outside this model.
  datatype Rules = Rules(canonical: Path -> string, safe: Path -> bool, excluded: Path -> bool)

  // ---- Collisions ----

  // Every directory and file name a path brings along.
  datatype Mark = Mark(name: Path, file: bool)

  function MarksOf(p: Path, n: nat): seq<Mark>
    requires n <= |p|
  {
    if n == 0 then [] else MarksOf(p, n - 1) + [Mark(p[..n], n == |p|)]
  }

  function AllMarks(paths: seq<Path>): seq<Mark>
  {
    if paths == [] then []
    else AllMarks(paths[..|paths| - 1]) + MarksOf(paths[|paths| - 1], |paths[|paths| - 1]|)
  }

  predicate Agree(x: Mark, y: Mark, canonical: Path -> string)
  {
    canonical(x.name) == canonical(y.name) ==> x.name == y.name && !x.file && !y.file
  }

  ghost predicate Compatible(marks: seq<Mark>, canonical: Path -> string)
  {
    forall i, j | 0 <= i < j < |marks| :: Agree(marks[i], marks[j], canonical)
  }

  // The `names` map after the marks `done` were registered without a collision.
  ghost predicate Registered(names: map<string, Mark>, done: seq<Mark>, canonical: Path -> string)
  {
    && (forall i | 0 <= i < |done| :: canonical(done[i].name) in names && names[canonical(done[i].name)] == done[i])
    && (forall c | c in names :: exists i :: 0 <= i < |done| && canonical(done[i].name) == c)
  }

  lemma CollisionFound(names: map<string, Mark>, done: seq<Mark>, m: Mark, canonical: Path -> string)
    requires Registered(names, done, canonical) && Compatible(done, canonical)
    ensures var c := canonical(m.name);
      Compatible(done + [m], canonical)
      <==> (c in names ==> names[c].name == m.name && !names[c].file && !m.file)
  {
    var c, all := canonical(m.name), done + [m];
    if c in names {
      var i :| 0 <= i < |done| && canonical(done[i].name) == c;
      assert all[i] == done[i] && all[|done|] == m;
      assert Compatible(all, canonical) ==> Agree(all[i], all[|done|], canonical);
    }
    if c in names ==> names[c].name == m.name && !names[c].file && !m.file {
      forall i, j | 0 <= i < j < |all| ensures Agree(all[i], all[j], canonical) {
        if j < |done| { assert Agree(done[i], done[j], canonical); }
      }
    }
  }

  lemma RegisterMark(names: map<string, Mark>, done: seq<Mark>, m: Mark, canonical: Path -> string)
    requires Registered(names, done, canonical) && Compatible(done, canonical) && Compatible(done + [m], canonical)
    ensures Registered(names[canonical(m.name) := m], done + [m], canonical)
  {
    var names', all := names[canonical(m.name) := m], done + [m];
    forall i | 0 <= i < |all| ensures canonical(all[i].name) in names' && names'[canonical(all[i].name)] == all[i] {
      if i < |done| { assert Agree(all[i], all[|done|], canonical); }
    }
    forall c | c in names' ensures exists i :: 0 <= i < |all| && canonical(all[i].name) == c {
      if c == canonical(m.name) {
        assert canonical(all[|done|].name) == c;
      } else {
        var i :| 0 <= i < |done| && canonical(done[i].name) == c;
        assert all[i] == done[i];
      }
    }
  }

  lemma CompatiblePrefix(marks: seq<Mark>, more: seq<Mark>, canonical: Path -> string)
    requires Compatible(marks + more, canonical)
    ensures Compatible(marks, canonical)
  {
    forall i, j | 0 <= i < j < |marks| ensures Agree(marks[i], marks[j], canonical) {
      assert (marks + more)[i] == marks[i] && (marks + more)[j] == marks[j];
      assert Agree((marks + more)[i], (marks + more)[j], canonical);
    }
  }

  lemma {:induction false} MarksSplit(p: Path, n: nat)
    requires n <= |p|
    ensures exists more :: MarksOf(p, |p|) == MarksOf(p, n) + more
    decreases |p| - n
  {
    if n == |p| {
      assert MarksOf(p, |p|) == MarksOf(p, n) + [];
    } else {
      MarksSplit(p, n + 1);
      var more :| MarksOf(p, |p|) == MarksOf(p, n + 1) + more;
      assert MarksOf(p, |p|) == MarksOf(p, n) + ([Mark(p[..n + 1], n + 1 == |p|)] + more);
    }
  }

  lemma CollisionLasts(done: seq<Mark>, p: Path, n: nat, canonical: Path -> string)
    requires n <= |p| && !Compatible(done + MarksOf(p, n), canonical)
    ensures !Compatible(done + MarksOf(p, |p|), canonical)
  {
    MarksSplit(p, n);
    var more :| MarksOf(p, |p|) == MarksOf(p, n) + more;
    assert done + MarksOf(p, |p|) == (done + MarksOf(p, n)) + more;
    if Compatible(done + MarksOf(p, |p|), canonical) { CompatiblePrefix(done + MarksOf(p, n), more, canonical); }
  }

  // One more name of a path: no collision exactly when the marks so far stay compatible, and
  // then the map may be updated.
  lemma NameStep(names: map<string, Mark>, done: seq<Mark>, p: Path, n: nat, canonical: Path -> string)
    requires 1 <= n <= |p|
    requires Registered(names, done + MarksOf(p, n - 1), canonical) && Compatible(done + MarksOf(p, n - 1), canonical)
    ensures var m := Mark(p[..n], n == |p|); var c := canonical(m.name);
      if c in names ==> names[c].name == m.name && !names[c].file && !m.file
      then Compatible(done + MarksOf(p, n), canonical) && Registered(names[c := m], done + MarksOf(p, n), canonical)
      else !Compatible(done + MarksOf(p, |p|), canonical)
  {
    var m, before := Mark(p[..n], n == |p|), done + MarksOf(p, n - 1);
    CollisionFound(names, before, m, canonical);
    assert before + [m] == done + MarksOf(p, n);
    if Compatible(before + [m], canonical) {
      RegisterMark(names, before, m, canonical);
    } else {
      CollisionLasts(done, p, n, canonical);
    }
  }

  // Registers the names of one path; false is a collision.
  method RegisterPath(names: map<string, Mark>, p: Path, canonical: Path -> string, ghost done: seq<Mark>)
    returns (ok: bool, updated: map<string, Mark>)
    requires Registered(names, done, canonical) && Compatible(done, canonical)
    ensures ok <==> Compatible(done + MarksOf(p, |p|), canonical)
    ensures ok ==> Registered(updated, done + MarksOf(p, |p|), canonical)
  {
    updated := names;
    var index := 1;
    assert done + MarksOf(p, 0) == done;
    while index <= |p|
      invariant 1 <= index <= |p| + 1
      invariant Compatible(done + MarksOf(p, index - 1), canonical)
      invariant Registered(updated, done + MarksOf(p, index - 1), canonical)
    {
      var m := Mark(p[..index], index == |p|);
      var key := canonical(m.name);
      NameStep(updated, done, p, index, canonical);
      if key in updated && (updated[key].name != m.name || updated[key].file || m.file) { return false, updated; }
      updated := updated[key := m];
      index := index + 1;
    }
    ok := true;
  }

  // ---- selectedGitEntries ----

  predicate Below(root: Path, p: Path) { |root| < |p| && root <= p }

  // The entries below the root, with paths relative to it.
  function Relative(entries: seq<Entry>, root: Path): seq<Entry>
  {
    if entries == [] then []
    else
      var e := entries[|entries| - 1];
      Relative(entries[..|entries| - 1], root) + if Below(root, e.path) then [e.(path := e.path[|root|..])] else []
  }

  function Paths(entries: seq<Entry>): (ps: seq<Path>)
    ensures |ps| == |entries| && forall i | 0 <= i < |entries| :: ps[i] == entries[i].path
  {
    seq(|entries|, i requires 0 <= i < |entries| => entries[i].path)
  }

  function Included(entries: seq<Entry>, rules: Rules): seq<Entry>
  {
    if entries == [] then []
    else
      var e := entries[|entries| - 1];
      Included(entries[..|entries| - 1], rules) + if rules.excluded(e.path) then [] else [e]
  }

  predicate EntryFine(e: Entry, rules: Rules, deferred: bool)
  {
    rules.safe(e.path) && (deferred || rules.excluded(e.path) || e.regular)
  }

  // What the selection accepts.
  ghost predicate Acceptable(selected: seq<Entry>, rules: Rules, deferred: bool)
  {
    && (forall i | 0 <= i < |selected| :: EntryFine(selected[i], rules, deferred))
    && Compatible(AllMarks(Paths(selected)), rules.canonical)
  }

  lemma {:induction false} AllMarksPrefix(paths: seq<Path>, n: nat)
    requires n <= |paths|
    ensures exists more :: AllMarks(paths) == AllMarks(paths[..n]) + more
    decreases |paths| - n
  {
    if n == |paths| {
      assert paths[..n] == paths && AllMarks(paths) == AllMarks(paths) + [];
    } else {
      AllMarksPrefix(paths, n + 1);
      var more :| AllMarks(paths) == AllMarks(paths[..n + 1]) + more;
      assert paths[..n + 1][..n] == paths[..n];
      assert AllMarks(paths) == AllMarks(paths[..n]) + (MarksOf(paths[n], |paths[n]|) + more);
    }
  }

  lemma PathsOfPrefix(entries: seq<Entry>, n: nat)
    requires n < |entries|
    ensures Paths(entries)[..n] == Paths(entries[..n])
    ensures AllMarks(Paths(entries[..n + 1])) == AllMarks(Paths(entries[..n])) + MarksOf(entries[n].path, |entries[n].path|)
  {
    assert Paths(entries[..n + 1])[..n] == Paths(entries[..n]);
  }

  method SelectedGitEntries(entries: seq<Entry>, root: Path, deferred: bool, rules: Rules) returns (r: Option<seq<Entry>>)
    ensures r.Some? <==> (root == [] || rules.safe(root)) && Acceptable(Relative(entries, root), rules, deferred)
    ensures r.Some? ==> r.value == Included(Relative(entries, root), rules)
  {
    if root != [] && !rules.safe(root) { return None; }
    var selected := Relative(entries, root);
    var names: map<string, Mark> := map[];
    var k := 0;
    while k < |selected|
      invariant k <= |selected|
      invariant forall i | 0 <= i < k :: EntryFine(selected[i], rules, deferred)
      invariant Compatible(AllMarks(Paths(selected[..k])), rules.canonical)
      invariant Registered(names, AllMarks(Paths(selected[..k])), rules.canonical)
    {
      var entry := selected[k];
      PathsOfPrefix(selected, k);
      if !rules.safe(entry.path) { return None; }
      var ok: bool;
      ok, names := RegisterPath(names, entry.path, rules.canonical, AllMarks(Paths(selected[..k])));
      if !ok {
        NotAcceptable(selected, k, rules, deferred);
        return None;
      }
      if !deferred && !rules.excluded(entry.path) && !entry.regular { return None; }
      k := k + 1;
    }
    assert selected[..k] == selected;
    r := Some(Included(selected, rules));
  }

  // ---- What is selected ----

  // The entry as it is called below the root.
  predicate Becomes(x: Entry, root: Path, e: Entry)
  {
    && |root| < |x.path| && x.path[..|root|] == root
    && e.path == x.path[|root|..] && e.regular == x.regular
  }

  lemma {:induction false} InRelative(entries: seq<Entry>, root: Path, e: Entry)
    ensures e in Relative(entries, root) <==> exists x :: x in entries && Becomes(x, root, e)
  {
    if entries != [] {
      var last := entries[|entries| - 1];
      InRelative(entries[..|entries| - 1], root, e);
      assert entries == entries[..|entries| - 1] + [last];
      assert Below(root, last.path) <==> |root| < |last.path| && last.path[..|root|] == root;
      assert Becomes(last, root, e) <==> Below(root, last.path) && e == last.(path := last.path[|root|..]);
      assert last in entries && forall x :: x in entries <==> x in entries[..|entries| - 1] || x == last;
    }
  }

  lemma {:induction false} InIncluded(entries: seq<Entry>, rules: Rules, e: Entry)
    ensures e in Included(entries, rules) <==> e in entries && !rules.excluded(e.path)
  {
    if entries != [] {
      InIncluded(entries[..|entries| - 1], rules, e);
      assert entries == entries[..|entries| - 1] + [entries[|entries| - 1]];
    }
  }

  // What comes out is every listed entry strictly below the root, called by the rest of its
  // path and of unchanged mode, unless that path is excluded; of everything below the root the
  // names are checked.
  lemma SelectedExactly(entries: seq<Entry>, root: Path, rules: Rules, e: Entry)
    ensures e in Included(Relative(entries, root), rules)
      <==> !rules.excluded(e.path) && exists x :: x in entries && Becomes(x, root, e)
    ensures e in Relative(entries, root) <==> exists x :: x in entries && Becomes(x, root, e)
  {
    InRelative(entries, root, e);
    InIncluded(Relative(entries, root), rules, e);
  }

  lemma NotAcceptable(selected: seq<Entry>, k: nat, rules: Rules, deferred: bool)
    requires k < |selected| && !Compatible(AllMarks(Paths(selected[..k + 1])), rules.canonical)
    ensures !Acceptable(selected, rules, deferred)
  {
    AllMarksPrefix(Paths(selected), k + 1);
    assert Paths(selected)[..k + 1] == Paths(selected[..k + 1]);
    var more :| AllMarks(Paths(selected)) == AllMarks(Paths(selected[..k + 1])) + more;
    if Compatible(AllMarks(Paths(selected)), rules.canonical) {
      CompatiblePrefix(AllMarks(Paths(selected[..k + 1])), more, rules.canonical);
    }
  }

  // ---- What acceptance means, path by path ----

  // Where the mark of the first `a` segments of path `i` is in the list.
  ghost function MarkIndex(paths: seq<Path>, i: nat, a: nat): nat
    requires i < |paths| && 1 <= a <= |paths[i]|
  {
    |AllMarks(paths[..i])| + a - 1
  }

  lemma {:induction false} MarksOfAt(p: Path, n: nat, a: nat)
    requires 1 <= a <= n <= |p|
    ensures |MarksOf(p, n)| == n && MarksOf(p, n)[a - 1] == Mark(p[..a], a == |p|)
  {
    MarksOfLength(p, n);
    MarksOfLength(p, n - 1);
    if a < n { MarksOfAt(p, n - 1, a); }
  }

  lemma {:induction false} MarksOfLength(p: Path, n: nat)
    requires n <= |p|
    ensures |MarksOf(p, n)| == n
  {
    if n > 0 { MarksOfLength(p, n - 1); }
  }

  lemma MarkAt(paths: seq<Path>, i: nat, a: nat)
    requires i < |paths| && 1 <= a <= |paths[i]|
    ensures MarkIndex(paths, i, a) < |AllMarks(paths)|
    ensures AllMarks(paths)[MarkIndex(paths, i, a)] == Mark(paths[i][..a], a == |paths[i]|)
    ensures MarkIndex(paths, i, a) < |AllMarks(paths[..i + 1])|
  {
    AllMarksPrefix(paths, i + 1);
    var more :| AllMarks(paths) == AllMarks(paths[..i + 1]) + more;
    assert paths[..i + 1][..i] == paths[..i];
    MarksOfAt(paths[i], |paths[i]|, a);
    var head, mid := AllMarks(paths[..i]), MarksOf(paths[i], |paths[i]|);
    assert AllMarks(paths[..i + 1]) == head + mid;
    assert (head + mid)[|head| + a - 1] == mid[a - 1];
  }

  lemma MarkIndexGrows(paths: seq<Path>, i: nat, a: nat, j: nat, b: nat)
    requires i < j < |paths| && 1 <= a <= |paths[i]| && 1 <= b <= |paths[j]|
    ensures MarkIndex(paths, i, a) < MarkIndex(paths, j, b)
  {
    MarkAt(paths, i, a);
    AllMarksPrefix(paths[..j], i + 1);
    assert paths[..j][..i + 1] == paths[..i + 1];
  }

  // After acceptance the names of directories and files are told apart on every platform:
  // equal canonical forms mean the same directory, or the very same place of the same path.
  lemma AcceptedNamesAreInjective(paths: seq<Path>, canonical: Path -> string, i: nat, a: nat, j: nat, b: nat)
    requires Compatible(AllMarks(paths), canonical)
    requires i < |paths| && j < |paths| && 1 <= a <= |paths[i]| && 1 <= b <= |paths[j]|
    requires canonical(paths[i][..a]) == canonical(paths[j][..b])
    ensures paths[i][..a] == paths[j][..b]
    ensures (i == j && a == b) || (a < |paths[i]| && b < |paths[j]|)
  {
    MarkAt(paths, i, a);
    MarkAt(paths, j, b);
    var x, y := MarkIndex(paths, i, a), MarkIndex(paths, j, b);
    if i < j { MarkIndexGrows(paths, i, a, j, b); }
    if j < i { MarkIndexGrows(paths, j, b, i, a); }
    var marks := AllMarks(paths);
    assert x >= y || Agree(marks[x], marks[y], canonical);
    assert y >= x || Agree(marks[y], marks[x], canonical);
  }

  // ---- The order of the entries does not matter ----

  // All pairs of a list agree: a statement about its multiset alone, the relation being symmetric.
  ghost predicate AllAgree(marks: multiset<Mark>, canonical: Path -> string)
  {
    forall x, y | x in marks && y in marks && (x == y ==> marks[x] >= 2) :: Agree(x, y, canonical)
  }

  lemma {:induction false} TwoPlaces(marks: seq<Mark>, x: Mark)
    requires multiset(marks)[x] >= 2
    ensures exists i, j :: 0 <= i < j < |marks| && marks[i] == x && marks[j] == x
  {
    var last := |marks| - 1;
    assert marks == marks[..last] + [marks[last]];
    if marks[last] == x {
      assert x in multiset(marks[..last]);
      var i :| 0 <= i < last && marks[..last][i] == x;
      assert marks[i] == x && marks[last] == x;
    } else {
      TwoPlaces(marks[..last], x);
      var i, j :| 0 <= i < j < last && marks[..last][i] == x && marks[..last][j] == x;
      assert marks[i] == x && marks[j] == x;
    }
  }

  lemma {:induction false} PlacesCount(marks: seq<Mark>, i: nat, j: nat)
    requires i < j < |marks| && marks[i] == marks[j]
    ensures multiset(marks)[marks[i]] >= 2
  {
    assert marks == marks[..j] + marks[j..];
    assert marks[..j][i] in multiset(marks[..j]) && marks[j..][0] in multiset(marks[j..]);
  }

  lemma CompatibleAsMultiset(marks: seq<Mark>, canonical: Path -> string)
    ensures Compatible(marks, canonical) <==> AllAgree(multiset(marks), canonical)
  {
    if Compatible(marks, canonical) {
      forall x, y | x in multiset(marks) && y in multiset(marks) && (x == y ==> multiset(marks)[x] >= 2)
        ensures Agree(x, y, canonical)
      {
        AgreeSomewhere(marks, x, y, canonical);
      }
    }
    if AllAgree(multiset(marks), canonical) {
      forall i, j | 0 <= i < j < |marks| ensures Agree(marks[i], marks[j], canonical) {
        if marks[i] == marks[j] { PlacesCount(marks, i, j); }
        assert marks[i] in multiset(marks) && marks[j] in multiset(marks);
      }
    }
  }

  lemma AgreeSomewhere(marks: seq<Mark>, x: Mark, y: Mark, canonical: Path -> string)
    requires Compatible(marks, canonical)
    requires x in marks && y in marks && (x == y ==> multiset(marks)[x] >= 2)
    ensures Agree(x, y, canonical)
  {
    if x == y {
      TwoPlaces(marks, x);
      var i, j :| 0 <= i < j < |marks| && marks[i] == x && marks[j] == x;
      assert Agree(marks[i], marks[j], canonical);
    } else {
      var i :| 0 <= i < |marks| && marks[i] == x;
      var j :| 0 <= j < |marks| && marks[j] == y;
      assert i >= j || Agree(marks[i], marks[j], canonical);
      assert j >= i || Agree(marks[j], marks[i], canonical);
    }
  }

  lemma MarksOfOneMore(paths: seq<Path>, p: Path)
    ensures AllMarks(paths + [p]) == AllMarks(paths) + MarksOf(p, |p|)
  {
    assert (paths + [p])[..|paths|] == paths;
  }

  lemma {:induction false} MarksConcat(a: seq<Path>, b: seq<Path>)
    ensures AllMarks(a + b) == AllMarks(a) + AllMarks(b)
  {
    if b == [] {
      assert a + b == a;
    } else {
      var init, p := b[..|b| - 1], b[|b| - 1];
      MarksConcat(a, init);
      MarksOfOneMore(a + init, p);
      assert a + b == (a + init) + [p];
    }
  }

  lemma MarksWithout(paths: seq<Path>, k: nat)
    requires k < |paths|
    ensures multiset(AllMarks(paths)) == multiset(AllMarks(Without(paths, k))) + multiset(MarksOf(paths[k], |paths[k]|))
  {
    var head, tail := paths[..k], paths[k + 1..];
    assert paths == paths[..k + 1] + tail && paths[..k + 1][..k] == head;
    MarksConcat(paths[..k + 1], tail);
    MarksConcat(head, tail);
  }

  lemma LastElsewhere<T>(a: seq<T>, b: seq<T>) returns (k: nat)
    requires multiset(a) == multiset(b) && a != []
    ensures k < |b| && b[k] == a[|a| - 1] && multiset(a[..|a| - 1]) == multiset(Without(b, k))
  {
    var last := |a| - 1;
    assert a == a[..last] + [a[last]];
    k := Occurrence(b, a[last], multiset(a));
    Cancel(multiset(a[..last]), multiset(Without(b, k)), a[last]);
  }

  lemma {:induction false} MarksIgnoreOrder(a: seq<Path>, b: seq<Path>)
    requires multiset(a) == multiset(b)
    ensures multiset(AllMarks(a)) == multiset(AllMarks(b))
    decreases |a|
  {
    if a == [] {
      assert |multiset(b)| == |b|;
    } else {
      var k := LastElsewhere(a, b);
      MarksIgnoreOrder(a[..|a| - 1], Without(b, k));
      MarksWithout(b, k);
    }
  }

  // Listing the same tree in another order changes nothing about which paths collide.
  lemma CollisionsIgnoreOrder(a: seq<Path>, b: seq<Path>, canonical: Path -> string)
    requires multiset(a) == multiset(b)
    ensures Compatible(AllMarks(a), canonical) <==> Compatible(AllMarks(b), canonical)
  {
    MarksIgnoreOrder(a, b);
    CompatibleAsMultiset(AllMarks(a), canonical);
    CompatibleAsMultiset(AllMarks(b), canonical);
  }

  lemma PathsConcat(a: seq<Entry>, b: seq<Entry>)
    ensures Paths(a + b) == Paths(a) + Paths(b)
  {
  }

  lemma {:induction false} PathsIgnoreOrder(a: seq<Entry>, b: seq<Entry>)
    requires multiset(a) == multiset(b)
    ensures multiset(Paths(a)) == multiset(Paths(b))
    decreases |a|
  {
    if a == [] {
      assert |multiset(b)| == |b|;
    } else {
      var k := LastElsewhere(a, b);
      PathsIgnoreOrder(a[..|a| - 1], Without(b, k));
      PathsConcat(a[..|a| - 1], [a[|a| - 1]]);
      assert a == a[..|a| - 1] + [a[|a| - 1]];
      assert Paths(Without(b, k)) == Without(Paths(b), k);
    }
  }

  lemma AcceptanceIgnoresOrder(a: seq<Entry>, b: seq<Entry>, rules: Rules, deferred: bool)
    requires multiset(a) == multiset(b)
    ensures Acceptable(a, rules, deferred) <==> Acceptable(b, rules, deferred)
  {
    PathsIgnoreOrder(a, b);
    assert multiset(b) == multiset(a);
    CollisionsIgnoreOrder(Paths(a), Paths(b), rules.canonical);
    if Acceptable(a, rules, deferred) { FineTransfers(a, b, rules, deferred); }
    if Acceptable(b, rules, deferred) { FineTransfers(b, a, rules, deferred); }
  }

  lemma FineTransfers(a: seq<Entry>, b: seq<Entry>, rules: Rules, deferred: bool)
    requires multiset(a) == multiset(b) && forall i | 0 <= i < |a| :: EntryFine(a[i], rules, deferred)
    ensures forall i | 0 <= i < |b| :: EntryFine(b[i], rules, deferred)
  {
    forall i | 0 <= i < |b| ensures EntryFine(b[i], rules, deferred) {
      assert b[i] in multiset(a);
      var j :| 0 <= j < |a| && a[j] == b[i];
      assert EntryFine(a[j], rules, deferred);
    }
  }

  lemma {:induction false} RelativeConcat(a: seq<Entry>, b: seq<Entry>, root: Path)
    ensures Relative(a + b, root) == Relative(a, root) + Relative(b, root)
  {
    if b == [] {
      assert a + b == a;
    } else {
      var init, last := b[..|b| - 1], b[|b| - 1];
      RelativeConcat(a, init, root);
      assert (a + b)[..|a + b| - 1] == a + init;
    }
  }

  lemma RelativeWithout(entries: seq<Entry>, k: nat, root: Path)
    requires k < |entries|
    ensures multiset(Relative(entries, root))
         == multiset(Relative(Without(entries, k), root)) + multiset(Relative([entries[k]], root))
  {
    var head, tail := entries[..k], entries[k + 1..];
    assert entries == head + ([entries[k]] + tail);
    RelativeConcat(head, [entries[k]] + tail, root);
    RelativeConcat([entries[k]], tail, root);
    RelativeConcat(head, tail, root);
  }

  lemma {:induction false} RelativeIgnoresOrder(a: seq<Entry>, b: seq<Entry>, root: Path)
    requires multiset(a) == multiset(b)
    ensures multiset(Relative(a, root)) == multiset(Relative(b, root))
    decreases |a|
  {
    if a == [] {
      assert |multiset(b)| == |b|;
    } else {
      var k := LastElsewhere(a, b);
      RelativeIgnoresOrder(a[..|a| - 1], Without(b, k), root);
      RelativeWithout(a, |a| - 1, root);
      assert Without(a, |a| - 1) == a[..|a| - 1];
      RelativeWithout(b, k, root);
    }
  }

  // The tree may list its entries in any order: the selection is accepted or refused alike.
  lemma SelectionIgnoresOrder(a: seq<Entry>, b: seq<Entry>, root: Path, rules: Rules, deferred: bool)
    requires multiset(a) == multiset(b)
    ensures Acceptable(Relative(a, root), rules, deferred) <==> Acceptable(Relative(b, root), rules, deferred)
  {
    RelativeIgnoresOrder(a, b, root);
    AcceptanceIgnoresOrder(Relative(a, root), Relative(b, root), rules, deferred);
  }
}
