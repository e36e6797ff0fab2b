// The byte streams fed to the payload digests (src/core/files.ts). The v2 framing can be
// parsed back, so different payloads give different streams; the older one cannot.
module PayloadDigest {
  import opened Options

  newtype Byte = x: int | 0 <= x < 256

  datatype Entry = Entry(path: seq<Byte>, length: seq<Byte>, contentDigest: seq<Byte>)

  const FIELD_LIMIT: int := 0x1_0000_0000

  predicate Fits(field: seq<Byte>) { |field| < FIELD_LIMIT }

  predicate EntryFits(e: Entry) { Fits(e.path) && Fits(e.length) && Fits(e.contentDigest) }

  // writeUInt32BE
  function BigEndian(n: nat): seq<Byte>
    requires n < FIELD_LIMIT
  {
    [(n / 0x100_0000) as Byte, ((n / 0x1_0000) % 256) as Byte, ((n / 256) % 256) as Byte, (n % 256) as Byte]
  }

  function ReadBigEndian(s: seq<Byte>): nat
    requires |s| >= 4
  {
    s[0] as nat * 0x100_0000 + s[1] as nat * 0x1_0000 + s[2] as nat * 256 + s[3] as nat
  }

  lemma BigEndianRoundTrip(n: nat)
    requires n < FIELD_LIMIT
    ensures ReadBigEndian(BigEndian(n)) == n
  {
    var a, b, c := n / 256, n / 0x1_0000, n / 0x100_0000;
    assert b == a / 256 && c == b / 256;
    assert n == a * 256 + n % 256 && a == b * 256 + a % 256 && b == c * 256 + b % 256;
  }

  function Field(value: seq<Byte>): seq<Byte>
    requires Fits(value)
  {
    BigEndian(|value|) + value
  }

  function EntryStream(e: Entry): seq<Byte>
    requires EntryFits(e)
  {
    Field(e.path) + (Field(e.length) + Field(e.contentDigest))
  }

  ghost predicate AllFit(entries: seq<Entry>)
  {
    forall i | 0 <= i < |entries| :: EntryFits(entries[i])
  }

  // Everything hashed after the constant prefix.
  ghost function Stream(entries: seq<Entry>): seq<Byte>
    requires AllFit(entries)
  {
    if entries == [] then [] else EntryStream(entries[0]) + Stream(entries[1..])
  }

  // ---- Parsing the stream back ----

  function ParseField(s: seq<Byte>): Option<(seq<Byte>, seq<Byte>)>
  {
    if |s| < 4 then None
    else
      var n := ReadBigEndian(s);
      if |s| < 4 + n then None else Some((s[4..4 + n], s[4 + n..]))
  }

  function ParseEntry(s: seq<Byte>): Option<(Entry, seq<Byte>)>
  {
    var path := ParseField(s);
    if path.None? then None
    else
      var length := ParseField(path.value.1);
      if length.None? then None
      else
        var content := ParseField(length.value.1);
        if content.None? then None
        else Some((Entry(path.value.0, length.value.0, content.value.0), content.value.1))
  }

  lemma ParseFieldShrinks(s: seq<Byte>)
    ensures ParseField(s).Some? ==> |ParseField(s).value.1| < |s|
  {
  }

  function Parse(s: seq<Byte>): Option<seq<Entry>>
    decreases |s|
  {
    if s == [] then Some([])
    else
      var first := ParseEntry(s);
      if first.None? then None
      else
        ParseFieldShrinks(s);
        var rest := Parse(first.value.1);
        if rest.None? then None else Some([first.value.0] + rest.value)
  }

  lemma FieldRoundTrip(value: seq<Byte>, rest: seq<Byte>)
    requires Fits(value)
    ensures ParseField(Field(value) + rest) == Some((value, rest))
  {
    var s := Field(value) + rest;
    BigEndianRoundTrip(|value|);
    assert ReadBigEndian(s) == ReadBigEndian(BigEndian(|value|));
    assert s[4..4 + |value|] == value && s[4 + |value|..] == rest;
  }

  lemma EntryRoundTrip(e: Entry, rest: seq<Byte>)
    requires EntryFits(e)
    ensures ParseEntry(EntryStream(e) + rest) == Some((e, rest))
  {
    FieldRoundTrip(e.path, Field(e.length) + (Field(e.contentDigest) + rest));
    FieldRoundTrip(e.length, Field(e.contentDigest) + rest);
    FieldRoundTrip(e.contentDigest, rest);
    assert EntryStream(e) + rest == Field(e.path) + (Field(e.length) + (Field(e.contentDigest) + rest));
  }

  lemma ParseStep(s: seq<Byte>, e: Entry, rest: seq<Byte>, more: seq<Entry>)
    requires s != [] && ParseEntry(s) == Some((e, rest)) && Parse(rest) == Some(more)
    ensures Parse(s) == Some([e] + more)
  {
  }

  lemma HeadStep(e: Entry, tail: seq<Byte>, more: seq<Entry>)
    requires EntryFits(e) && Parse(tail) == Some(more)
    ensures Parse(EntryStream(e) + tail) == Some([e] + more)
  {
    EntryRoundTrip(e, tail);
    var s := EntryStream(e) + tail;
    assert |s| >= |Field(e.path)| >= 4;
    ParseStep(s, e, tail, more);
  }

  lemma StreamOfCons(e: Entry, rest: seq<Entry>)
    requires AllFit([e] + rest)
    ensures AllFit(rest) && EntryFits(e) && Stream([e] + rest) == EntryStream(e) + Stream(rest)
  {
    var all := [e] + rest;
    assert all[1..] == rest;
    assert EntryFits(all[0]);
    forall i | 0 <= i < |rest| ensures EntryFits(rest[i]) { assert EntryFits(all[i + 1]); }
  }

  // Decoding the stream of a payload gives the payload back.
  lemma {:induction false} StreamRoundTrip(entries: seq<Entry>)
    requires AllFit(entries)
    ensures Parse(Stream(entries)) == Some(entries)
  {
    if entries == [] {
      assert Stream(entries) == [];
    } else {
      var e, rest := entries[0], entries[1..];
      assert entries == [e] + rest;
      StreamOfCons(e, rest);
      StreamRoundTrip(rest);
      HeadStep(e, Stream(rest), rest);
    }
  }

  // Hence payloads with the same stream are the same payload.
  lemma StreamDecidesPayload(a: seq<Entry>, b: seq<Entry>)
    requires AllFit(a) && AllFit(b) && Stream(a) == Stream(b)
    ensures a == b
  {
    StreamRoundTrip(a);
    StreamRoundTrip(b);
  }

  // Three length-prefixed fields per file.
  method FeedEntry(fed: seq<Byte>, e: Entry) returns (more: seq<Byte>)
    requires EntryFits(e)
    ensures more == fed + EntryStream(e)
  {
    more := fed + Field(e.path);
    more := more + Field(e.length);
    more := more + Field(e.contentDigest);
  }

  lemma StreamFrom(entries: seq<Entry>, i: nat)
    requires i < |entries| && AllFit(entries[i..])
    ensures AllFit(entries[i + 1..]) && EntryFits(entries[i])
    ensures Stream(entries[i..]) == EntryStream(entries[i]) + Stream(entries[i + 1..])
  {
    assert entries[i..] == [entries[i]] + entries[i + 1..];
    StreamOfCons(entries[i], entries[i + 1..]);
  }

  // The loop of sha256DirectoryV2
  method FeedDigest(entries: seq<Entry>) returns (fed: seq<Byte>)
    requires AllFit(entries)
    ensures fed == Stream(entries)
    ensures Parse(fed) == Some(entries)
  {
    fed := [];
    var i := 0;
    while i < |entries|
      invariant i <= |entries| && AllFit(entries[i..])
      invariant fed + Stream(entries[i..]) == Stream(entries)
    {
      StreamFrom(entries, i);
      fed := FeedEntry(fed, entries[i]);
      i := i + 1;
    }
    assert entries[i..] == [] && Stream([]) == [];
    StreamRoundTrip(entries);
  }

  // ---- The older digest ----

  datatype File = File(path: seq<Byte>, content: seq<Byte>)

  function OldStream(files: seq<File>): seq<Byte>
  {
    if files == [] then [] else files[0].path + [0] + files[0].content + [0] + OldStream(files[1..])
  }

  // Two files and one file that holds the separators give the same older stream.
  lemma OldStreamIsAmbiguous(p: seq<Byte>, x: seq<Byte>, q: seq<Byte>, y: seq<Byte>, rest: seq<File>)
    ensures OldStream([File(p, x), File(q, y)] + rest) == OldStream([File(p, x + [0] + q + [0] + y)] + rest)
    ensures [File(p, x), File(q, y)] + rest != [File(p, x + [0] + q + [0] + y)] + rest
  {
    OldStreamOfCons(File(p, x), [File(q, y)] + rest);
    OldStreamOfCons(File(q, y), rest);
    OldStreamOfCons(File(p, x + [0] + q + [0] + y), rest);
    assert [File(p, x), File(q, y)] + rest == [File(p, x)] + ([File(q, y)] + rest);
    assert |[File(p, x), File(q, y)] + rest| != |[File(p, x + [0] + q + [0] + y)] + rest|;
  }

  lemma OldStreamOfCons(f: File, rest: seq<File>)
    ensures OldStream([f] + rest) == f.path + ([0] + (f.content + ([0] + OldStream(rest))))
  {
    assert ([f] + rest)[1..] == rest;
  }

  // ---- When the older digest is unambiguous ----

  predicate NulFree(s: seq<Byte>) { 0 !in s }

  function Nuls(s: seq<Byte>): nat { multiset(s)[0] }

  // File systems allow no NUL in a path.
  predicate PathsFine(files: seq<File>) { forall f | f in files :: NulFree(f.path) }

  lemma CutAtNul(a: seq<Byte>, x: seq<Byte>, b: seq<Byte>, y: seq<Byte>)
    requires NulFree(a) && NulFree(b) && a + ([0] + x) == b + ([0] + y)
    ensures a == b && x == y
  {
    var s := a + ([0] + x);
    assert s[|a|] == 0 && (b + ([0] + y))[|b|] == 0;
    assert a == s[..|a|] && b == s[..|b|] && x == s[|a| + 1..] && y == s[|b| + 1..];
  }

  lemma OldStreamIsLong(files: seq<File>)
    requires files != []
    ensures |OldStream(files)| >= 2 && Nuls(OldStream(files)) >= 2
  {
    assert files == [files[0]] + files[1..];
    OldStreamOfCons(files[0], files[1..]);
  }

  // Without NUL bytes in the contents the older stream tells payloads apart.
  lemma {:induction false} OldStreamDecidesText(a: seq<File>, b: seq<File>)
    requires PathsFine(a) && PathsFine(b) && OldStream(a) == OldStream(b)
    requires forall f | f in a + b :: NulFree(f.content)
    ensures a == b
  {
    if a == [] {
      if b != [] { OldStreamIsLong(b); }
    } else if b == [] {
      OldStreamIsLong(a);
    } else {
      assert a == [a[0]] + a[1..] && b == [b[0]] + b[1..];
      OldStreamOfCons(a[0], a[1..]);
      OldStreamOfCons(b[0], b[1..]);
      assert a[0] in a + b && b[0] in a + b;
      CutAtNul(a[0].path, a[0].content + ([0] + OldStream(a[1..])), b[0].path, b[0].content + ([0] + OldStream(b[1..])));
      CutAtNul(a[0].content, OldStream(a[1..]), b[0].content, OldStream(b[1..]));
      assert forall f | f in a[1..] + b[1..] :: f in a + b;
      OldStreamDecidesText(a[1..], b[1..]);
    }
  }

  ghost predicate Unmistakable(files: seq<File>)
  {
    forall other: seq<File> | PathsFine(other) && OldStream(other) == OldStream(files) :: other == files
  }

  // A short list: nothing, or one file with at most one NUL in its content.
  predicate Short(files: seq<File>)
  {
    files == [] || (|files| == 1 && Nuls(files[0].content) <= 1)
  }

  lemma NothingFollows(c: seq<Byte>, d: seq<Byte>, rest: seq<File>)
    requires c + ([0] + OldStream([])) == d + ([0] + OldStream(rest)) && Nuls(c) <= 1
    ensures rest == [] && c == d
  {
    assert OldStream([]) == [];
    assert Nuls(c + ([0] + OldStream([]))) == Nuls(c) + 1;
    assert Nuls(d + ([0] + OldStream(rest))) == Nuls(d) + 1 + Nuls(OldStream(rest));
    if rest != [] { OldStreamIsLong(rest); }
    assert c == (c + ([0] + OldStream([])))[..|c|] && d == (d + ([0] + OldStream([])))[..|d|];
  }

  lemma ShortIsUnmistakable(files: seq<File>, other: seq<File>)
    requires PathsFine(files) && PathsFine(other) && Short(files) && OldStream(other) == OldStream(files)
    ensures other == files
  {
    if files == [] {
      if other != [] { OldStreamIsLong(other); }
    } else if other == [] {
      OldStreamIsLong(files);
    } else {
      var f, g, rest := files[0], other[0], other[1..];
      assert files == [f] + [] && other == [g] + rest;
      OldStreamOfCons(f, []);
      OldStreamOfCons(g, rest);
      CutAtNul(f.path, f.content + ([0] + OldStream([])), g.path, g.content + ([0] + OldStream(rest)));
      NothingFollows(f.content, g.content, rest);
    }
  }

  // The text before the first NUL and what follows it.
  lemma FirstNul(s: seq<Byte>) returns (before: seq<Byte>, after: seq<Byte>)
    requires 0 in s
    ensures NulFree(before) && s == before + ([0] + after)
  {
    var i := 0;
    while s[i] != 0
      invariant i < |s| && NulFree(s[..i]) && 0 in s[i..]
      decreases |s| - i
    {
      assert s[i..] == [s[i]] + s[i + 1..];
      assert s[..i + 1] == s[..i] + [s[i]];
      i := i + 1;
    }
    before, after := s[..i], s[i + 1..];
  }

  lemma LongIsMistakable(files: seq<File>) returns (other: seq<File>)
    requires PathsFine(files) && !Short(files)
    ensures PathsFine(other) && OldStream(other) == OldStream(files) && other != files
  {
    if |files| == 1 {
      var f := files[0];
      var x, more := FirstNul(f.content);
      assert Nuls(f.content) == Nuls(x) + 1 + Nuls(more);
      var q, y := FirstNul(more);
      other := [File(f.path, x), File(q, y)];
      OldStreamIsAmbiguous(f.path, x, q, y, []);
      assert f.content == x + [0] + q + [0] + y;
      assert files == [File(f.path, x + [0] + q + [0] + y)] + [] && other == other + [];
    } else {
      var f, g, rest := files[0], files[1], files[2..];
      OldStreamIsAmbiguous(f.path, f.content, g.path, g.content, rest);
      assert files == [File(f.path, f.content), File(g.path, g.content)] + rest;
      other := [File(f.path, f.content + [0] + g.path + [0] + g.content)] + rest;
    }
  }

  // The older stream of a list belongs to no other list exactly if the list is empty, or is one
  // file whose content holds at most one NUL.
  lemma OldStreamIsUnmistakableExactly(files: seq<File>)
    requires PathsFine(files)
    ensures Unmistakable(files) <==> Short(files)
  {
    if Short(files) {
      forall other: seq<File> | PathsFine(other) && OldStream(other) == OldStream(files) ensures other == files {
        ShortIsUnmistakable(files, other);
      }
    } else {
      var other := LongIsMistakable(files);
    }
  }
}
