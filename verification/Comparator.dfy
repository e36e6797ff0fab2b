// The verdict on files, components and snapshots (src/metadata/comparator.ts): which side of
// the size threshold a file falls on does not matter, and neither does the direction of the
// comparison, except that additions and removals change places.
module Comparator {
  import opened Options
  import opened TextNormalization
  import opened XmlSemantics
  import XmlDiff
  import opened XmlVerdict
  import opened XmlTree
  import opened LargeXml
  import opened XmlSameVerdict
  import opened XmlAgreement
  import opened XmlDisagreement

  const MAX_DIFF_INPUT_BYTES: nat := 1024 * 1024

  datatype Kind = XmlFile | TextFile | BinaryFile

  datatype Status = Added | Removed | Modified | Identical

  // A NUL-free UTF-8 file.
  datatype Content = Content(bytes: seq<int>, text: string)

  // What is outside this model: the parsed element tree of a text, the kind detected from a
  // path and two contents (in full, or from their first 4096 bytes), and the hashes.
  datatype Setting = Setting(
    strict: bool, pol: Policies, h: Hasher, tree: string -> Element,
    kind: (string, Content, Content) -> Kind, prefixKind: (string, Content, Content) -> Kind)

  // Both parsers stop at the root element, so a final line break changes nothing; kinds do
  // not depend on the order of the two files. A prefix may cut a character and look binary,
  // but both detections agree on what is XML, and whole text is never binary.
  ghost predicate Sound(s: Setting)
  {
    && (forall t :: WellNamed(s.tree(t)))
    && (forall t: string :: s.tree(t + "\n") == s.tree(t))
    && (forall p, a, b :: s.kind(p, a, b) == s.kind(p, b, a) && s.prefixKind(p, a, b) == s.prefixKind(p, b, a))
    && (forall p, a, b :: s.kind(p, a, b) != BinaryFile && (s.kind(p, a, b) == XmlFile <==> s.prefixKind(p, a, b) == XmlFile))
    && Ideal(s.h) && TopLevelUnordered(s.pol)
  }

  ghost predicate SameText(left: Content, right: Content)
  {
    NormalizeText(left.text) == NormalizeText(right.text)
  }

  // ---- compareFile, below and above the threshold ----

  ghost function SmallFileStatus(path: string, left: Content, right: Content, s: Setting): Status
  {
    var kind := s.kind(path, left, right);
    if left.bytes == right.bytes then Identical
    else if kind == BinaryFile then Modified
    else if kind == XmlFile then
      if SmallSame(s.tree(NormalizeText(left.text)), s.tree(NormalizeText(right.text)), s.pol)
        && !(s.strict && !SameText(left, right)) then Identical else Modified
    else if SameText(left, right) then Identical else Modified
  }

  ghost function LargeFileStatus(path: string, left: Content, right: Content, s: Setting): Status
  {
    if left.bytes == right.bytes then Identical
    else
      // Equal normalised texts have equal hashes; a binary-looking text is text after all.
      var identical := SameText(left, right);
      if s.prefixKind(path, left, right) == XmlFile then
        if LargeSame(s.tree(Newlines(WithoutBom(left.text))), s.tree(Newlines(WithoutBom(right.text))), s.pol, s.h)
          && !(s.strict && !identical) then Identical else Modified
      else if identical then Identical else Modified
  }

  ghost function FileStatus(path: string, left: Content, right: Content, s: Setting): Status
  {
    if |left.bytes| > MAX_DIFF_INPUT_BYTES || |right.bytes| > MAX_DIFF_INPUT_BYTES
    then LargeFileStatus(path, left, right, s) else SmallFileStatus(path, left, right, s)
  }

  lemma SameTree(t: string, s: Setting)
    requires Sound(s)
    ensures s.tree(NormalizeText(t)) == s.tree(Newlines(WithoutBom(t)))
  {
    var u := Newlines(WithoutBom(t));
    assert s.tree(u + "\n") == s.tree(u);
  }

  // The verdict is the same on both sides of the threshold, strict or not, if the documents
  // meet the agreement condition of the two XML comparisons.
  lemma SizeDoesNotMatter(path: string, left: Content, right: Content, s: Setting)
    requires Sound(s)
    requires s.kind(path, left, right) == XmlFile ==> SameTests(s.tree(NormalizeText(left.text)), s.pol, s.h)
    ensures SmallFileStatus(path, left, right, s) == LargeFileStatus(path, left, right, s)
  {
    SameTree(left.text, s);
    SameTree(right.text, s);
    if s.kind(path, left, right) == XmlFile {
      LargeAgreesWithSmall(s.tree(NormalizeText(left.text)), s.tree(NormalizeText(right.text)), s.pol, s.h);
    }
  }

  lemma FileVerdictIsSymmetric(path: string, left: Content, right: Content, s: Setting)
    requires Sound(s)
    ensures FileStatus(path, left, right, s) == FileStatus(path, right, left, s)
  {
    SmallIsSymmetric(s.tree(NormalizeText(left.text)), s.tree(NormalizeText(right.text)), s.pol);
  }

  // ---- What the verdict on a file says ----

  // The two documents have the same root name and, below it, the same metadata.
  ghost predicate SameMetadata(a: Element, b: Element, pol: Policies)
  {
    a.name == b.name && SameRoot(V(a), V(b), a.name, pol)
  }

  // Two files are identical exactly if their bytes are, or they are text with the same normal
  // form, or XML with the same metadata and, if asked for, also the same normal form. On the
  // large side this needs the agreement condition for XML.
  lemma FileVerdictExactly(path: string, left: Content, right: Content, s: Setting)
    requires Sound(s)
    requires s.kind(path, left, right) == XmlFile ==> SameTests(s.tree(NormalizeText(left.text)), s.pol, s.h)
    ensures FileStatus(path, left, right, s) in {Identical, Modified}
    ensures FileStatus(path, left, right, s) == Identical
      <==> (|| left.bytes == right.bytes
            || (if s.kind(path, left, right) == XmlFile then
                  && SameMetadata(s.tree(NormalizeText(left.text)), s.tree(NormalizeText(right.text)), s.pol)
                  && (s.strict ==> NormalizeText(left.text) == NormalizeText(right.text))
                else NormalizeText(left.text) == NormalizeText(right.text)))
  {
    SizeDoesNotMatter(path, left, right, s);
    SmallVerdict(s.tree(NormalizeText(left.text)), s.tree(NormalizeText(right.text)), s.pol);
  }

  // Line ends, a byte-order mark and a missing last line break make no difference to any file,
  // of any kind and on either side of the threshold.
  lemma LayoutOfTextNeverMatters(path: string, left: Content, right: Content, s: Setting)
    requires Sound(s) && NormalizeText(left.text) == NormalizeText(right.text)
    ensures FileStatus(path, left, right, s) == Identical
  {
    var a := s.tree(NormalizeText(left.text));
    SmallVerdict(a, a, s.pol);
    SameRootItself(V(a), a.name, s.pol);
    SameTree(left.text, s);
    SameTree(right.text, s);
  }

  lemma SameRootItself(v: XmlDiff.Value, name: string, pol: Policies)
    ensures SameRoot(v, v, name, pol)
  {
  }

  // ---- Components and snapshots ----

  type Component = map<string, Content>

  type Snapshot = map<string, Component>

  ghost predicate SameFiles(left: Component, right: Component, s: Setting)
  {
    && left.Keys == right.Keys
    && forall p | p in left :: p in right && FileStatus(p, left[p], right[p], s) == Identical
  }

  ghost function ComponentStatus(key: string, left: Snapshot, right: Snapshot, s: Setting): Status
    requires key in left || key in right
  {
    if key !in left then Added
    else if key !in right then Removed
    else if SameFiles(left[key], right[key], s) then Identical else Modified
  }

  // A component is new or gone if only one snapshot has it, and otherwise identical exactly if
  // it has the same files on both sides and each of them is.
  lemma ComponentVerdictExactly(key: string, left: Snapshot, right: Snapshot, s: Setting)
    requires key in left || key in right
    ensures ComponentStatus(key, left, right, s) == Added <==> key in right && key !in left
    ensures ComponentStatus(key, left, right, s) == Removed <==> key in left && key !in right
    ensures ComponentStatus(key, left, right, s) == Identical
      <==> (&& key in left && key in right && (forall p :: p in left[key] <==> p in right[key])
            && forall p | p in left[key] && p in right[key] :: FileStatus(p, left[key][p], right[key][p], s) == Identical)
  {
    if key in left && key in right {
      assert left[key].Keys == right[key].Keys <==> forall p :: p in left[key] <==> p in right[key];
    }
  }

  function Mirrored(status: Status): Status
  {
    match status
    case Added => Removed
    case Removed => Added
    case _ => status
  }

  // Swapping the two sides swaps additions and removals and keeps everything else.
  lemma SwapMirrorsComponents(key: string, left: Snapshot, right: Snapshot, s: Setting)
    requires Sound(s) && (key in left || key in right)
    ensures ComponentStatus(key, right, left, s) == Mirrored(ComponentStatus(key, left, right, s))
  {
    if key in left && key in right {
      forall p | p in left[key] && p in right[key]
        ensures FileStatus(p, left[key][p], right[key][p], s) == FileStatus(p, right[key][p], left[key][p], s)
      {
        FileVerdictIsSymmetric(p, left[key][p], right[key][p], s);
      }
      assert SameFiles(left[key], right[key], s) <==> SameFiles(right[key], left[key], s);
    }
  }

  // ---- summarize ----

  datatype Summary = Summary(added: nat, removed: nat, modified: nat, identical: nat, total: nat, different: nat)

  function Count(statuses: seq<Status>, status: Status): nat
  {
    if statuses == [] then 0 else Count(statuses[1..], status) + if statuses[0] == status then 1 else 0
  }

  function Summarize(statuses: seq<Status>): Summary
  {
    var a, r, m := Count(statuses, Added), Count(statuses, Removed), Count(statuses, Modified);
    Summary(a, r, m, Count(statuses, Identical), |statuses|, a + r + m)
  }

  lemma {:induction false} CountsAddUp(statuses: seq<Status>)
    ensures var s := Summarize(statuses); s.identical + s.different == s.total
  {
    if statuses != [] { CountsAddUp(statuses[1..]); }
  }

  lemma {:induction false} MirroredCounts(a: seq<Status>, b: seq<Status>, status: Status)
    requires |a| == |b| && forall i | 0 <= i < |a| :: b[i] == Mirrored(a[i])
    ensures Count(b, Mirrored(status)) == Count(a, status)
  {
    if a != [] {
      assert Mirrored(Mirrored(a[0])) == a[0];
      MirroredCounts(a[1..], b[1..], status);
    }
  }

  ghost function Statuses(keys: seq<string>, left: Snapshot, right: Snapshot, s: Setting): (r: seq<Status>)
    requires forall k | k in keys :: k in left || k in right
    ensures |r| == |keys| && forall i | 0 <= i < |keys| :: r[i] == ComponentStatus(keys[i], left, right, s)
  {
    seq(|keys|, i requires 0 <= i < |keys| => ComponentStatus(keys[i], left, right, s))
  }

  // The keys whose status is the given one.
  function Named(keys: seq<string>, statuses: seq<Status>, status: Status): set<string>
    requires |keys| == |statuses|
  {
    set i | 0 <= i < |keys| && statuses[i] == status :: keys[i]
  }

  lemma NamedTail(keys: seq<string>, statuses: seq<Status>, status: Status)
    requires |keys| == |statuses| && keys != []
    ensures Named(keys, statuses, status)
      == Named(keys[1..], statuses[1..], status) + if statuses[0] == status then {keys[0]} else {}
  {
    forall k | k in Named(keys, statuses, status)
      ensures k in Named(keys[1..], statuses[1..], status) || (k == keys[0] && statuses[0] == status)
    {
      var i :| 0 <= i < |keys| && statuses[i] == status && keys[i] == k;
      assert i == 0 || (keys[1..][i - 1] == k && statuses[1..][i - 1] == status);
    }
    forall k | k in Named(keys[1..], statuses[1..], status) ensures k in Named(keys, statuses, status) {
      var i :| 0 <= i < |keys[1..]| && statuses[1..][i] == status && keys[1..][i] == k;
      assert keys[i + 1] == k && statuses[i + 1] == status;
    }
  }

  predicate EachOnce(keys: seq<string>) { forall i, j | 0 <= i < j < |keys| :: keys[i] != keys[j] }

  lemma {:induction false} CountIsCardinality(keys: seq<string>, statuses: seq<Status>, status: Status)
    requires |keys| == |statuses| && EachOnce(keys)
    ensures Count(statuses, status) == |Named(keys, statuses, status)|
  {
    if keys == [] {
      assert Named(keys, statuses, status) == {};
    } else {
      CountIsCardinality(keys[1..], statuses[1..], status);
      NamedTail(keys, statuses, status);
      assert keys[0] !in Named(keys[1..], statuses[1..], status);
    }
  }

  // The counts of a summary: how many components are only on the right, only on the left, and
  // so on, for a list that names each component once.
  lemma SummaryCounts(keys: seq<string>, left: Snapshot, right: Snapshot, s: Setting)
    requires forall k | k in keys :: k in left || k in right
    requires EachOnce(keys)
    ensures var sum := Summarize(Statuses(keys, left, right, s));
      && sum.total == |keys| && sum.different == sum.added + sum.removed + sum.modified == sum.total - sum.identical
      && sum.added == |set k | k in keys && k !in left|
      && sum.removed == |set k | k in keys && k !in right|
      && sum.modified == |set k | k in keys && (k in left || k in right) && ComponentStatus(k, left, right, s) == Modified|
      && sum.identical == |set k | k in keys && (k in left || k in right) && ComponentStatus(k, left, right, s) == Identical|
  {
    var statuses := Statuses(keys, left, right, s);
    CountsAddUp(statuses);
    forall status ensures Count(statuses, status)
      == |set k | k in keys && (k in left || k in right) && ComponentStatus(k, left, right, s) == status|
    {
      CountIsCardinality(keys, statuses, status);
      NamedByStatus(keys, left, right, s, status);
    }
    assert (set k | k in keys && k !in left)
      == set k | k in keys && (k in left || k in right) && ComponentStatus(k, left, right, s) == Added;
    assert (set k | k in keys && k !in right)
      == set k | k in keys && (k in left || k in right) && ComponentStatus(k, left, right, s) == Removed;
  }

  lemma NamedByStatus(keys: seq<string>, left: Snapshot, right: Snapshot, s: Setting, status: Status)
    requires forall k | k in keys :: k in left || k in right
    ensures Named(keys, Statuses(keys, left, right, s), status)
      == set k | k in keys && (k in left || k in right) && ComponentStatus(k, left, right, s) == status
  {
    forall k | k in keys && (k in left || k in right) && ComponentStatus(k, left, right, s) == status
      ensures k in Named(keys, Statuses(keys, left, right, s), status)
    {
      var i :| 0 <= i < |keys| && keys[i] == k;
      assert Statuses(keys, left, right, s)[i] == status;
    }
  }

  // A comparison read in the other direction: added and removed exchanged, the rest the same.
  lemma SwapMirrorsSummary(keys: seq<string>, left: Snapshot, right: Snapshot, s: Setting)
    requires Sound(s) && forall k | k in keys :: k in left || k in right
    ensures var there, back := Summarize(Statuses(keys, left, right, s)), Summarize(Statuses(keys, right, left, s));
      && back.added == there.removed && back.removed == there.added && back.modified == there.modified
      && back.identical == there.identical && back.total == there.total && back.different == there.different
      && there.identical + there.different == there.total
  {
    var a, b := Statuses(keys, left, right, s), Statuses(keys, right, left, s);
    forall i | 0 <= i < |keys| ensures b[i] == Mirrored(a[i]) {
      SwapMirrorsComponents(keys[i], left, right, s);
    }
    MirroredCounts(a, b, Added);
    MirroredCounts(a, b, Removed);
    MirroredCounts(a, b, Modified);
    MirroredCounts(a, b, Identical);
    CountsAddUp(a);
  }
}
