// Streaming text normalisation: feeding a text in any chunks gives what the whole-text
// definition gives (src/metadata/normalized-text-hash.ts, src/metadata/xml-stream.ts,
// normalizeText of src/metadata/comparator.ts).
module TextNormalization {
  import opened Options

  const BOM: char := '\U{FEFF}'

  // ---- Whole-text definitions ----

  // replace(/\r\n?/gu, '\n')
  function Newlines(s: string): string
    decreases |s|
  {
    if s == "" then ""
    else if s[0] != '\r' then [s[0]] + Newlines(s[1..])
    else if |s| > 1 && s[1] == '\n' then "\n" + Newlines(s[2..])
    else "\n" + Newlines(s[1..])
  }

  function WithoutBom(s: string): string
  {
    if s != "" && s[0] == BOM then s[1..] else s
  }

  predicate EndsWith(s: string, c: char)
  {
    s != "" && s[|s| - 1] == c
  }

  function NormalizeText(s: string): string
  {
    var text := Newlines(WithoutBom(s));
    if text == "" || EndsWith(text, '\n') then text else text + "\n"
  }

  // A line feed that continues a carriage return already seen is dropped.
  function Continued(after: string, s: string): string
  {
    if EndsWith(after, '\r') && s != "" && s[0] == '\n' then s[1..] else s
  }

  // The first line break or character, as it is read and as it is written.
  function Unit(s: string): (k: nat)
    requires s != ""
    ensures 1 <= k <= |s|
  {
    if s[0] == '\r' && |s| > 1 && s[1] == '\n' then 2 else 1
  }

  function Written(c: char): char
  {
    if c == '\r' then '\n' else c
  }

  lemma OneUnit(s: string)
    requires s != ""
    ensures Newlines(s) == [Written(s[0])] + Newlines(s[Unit(s)..])
  {
  }

  lemma {:induction false} NewlinesConcat(a: string, b: string)
    ensures Newlines(a + b) == Newlines(a) + Newlines(Continued(a, b))
    decreases |a|
  {
    if a == "" {
      assert a + b == b;
    } else if a == "\r" {
      LoneReturn(b);
    } else {
      var k := Unit(a);
      assert Unit(a + b) == k && (a + b)[k..] == a[k..] + b;
      OneUnit(a + b);
      OneUnit(a);
      NewlinesConcat(a[k..], b);
      ContinuedLater(a, b, k);
    }
  }

  lemma ContinuedLater(a: string, b: string, k: nat)
    requires a != "" && a != "\r" && k == Unit(a)
    ensures Continued(a, b) == Continued(a[k..], b)
  {
    if |a| > k { assert a[k..][|a| - k - 1] == a[|a| - 1]; }
  }

  lemma LoneReturn(b: string)
    ensures Newlines("\r" + b) == Newlines("\r") + Newlines(Continued("\r", b))
  {
    var s := "\r" + b;
    assert "\r"[1..] == "" && Newlines("\r") == "\n";
    if b != "" && b[0] == '\n' { assert s[2..] == b[1..]; } else { assert s[1..] == b; }
  }

  // What a normalised text ends with, and that normalising again changes nothing.
  lemma {:induction false} NewlinesEnd(s: string)
    ensures s != "" <==> Newlines(s) != ""
    ensures '\r' !in Newlines(s)
    ensures Newlines(Newlines(s)) == Newlines(s)
    decreases |s|
  {
    if s != "" {
      var k := if s[0] == '\r' && |s| > 1 && s[1] == '\n' then 2 else 1;
      NewlinesEnd(s[k..]);
      var c := if s[0] == '\r' then '\n' else s[0];
      assert Newlines(s) == [c] + Newlines(s[k..]);
      assert ([c] + Newlines(s[k..]))[1..] == Newlines(s[k..]);
    }
  }

  predicate TwoBoms(s: string)
  {
    |s| > 1 && s[0] == BOM && s[1] == BOM
  }

  // Normalising twice changes nothing, except that only one byte-order mark is dropped.
  lemma NormalizeIsIdempotent(s: string)
    ensures NormalizeText(NormalizeText(s)) == NormalizeText(s) <==> !TwoBoms(s)
  {
    var t := Newlines(WithoutBom(s));
    var r := NormalizeText(s);
    NewlinesEnd(WithoutBom(s));
    NewlinesConcat(t, "\n");
    assert Newlines("\n") == "\n" by { assert "\n"[1..] == ""; }
    assert t + Newlines("\n") == t + "\n";
    assert Newlines(r) == r;
    assert t != "" ==> (t[0] == BOM <==> WithoutBom(s)[0] == BOM);
    if TwoBoms(s) {
      assert r[0] == BOM && |r| > 1;
      assert Newlines(r) == [r[0]] + Newlines(r[1..]);
      assert Newlines(r[1..]) == ([r[0]] + Newlines(r[1..]))[1..];
      assert Newlines(r[1..]) == r[1..];
      assert NormalizeText(r) == r[1..];
    } else {
      assert WithoutBom(r) == r;
    }
  }

  function Concat(chunks: seq<string>): string
  {
    if chunks == [] then "" else Concat(chunks[..|chunks| - 1]) + chunks[|chunks| - 1]
  }

  // ---- normalizedTextHash ----

  // The part of a chunk that counts: the first one loses its byte-order mark.
  function Counted(seen: string, chunk: string): string
  {
    if seen == "" then WithoutBom(chunk) else chunk
  }

  lemma ChunkAdds(seen: string, chunk: string)
    requires chunk != ""
    ensures var before, text := WithoutBom(seen), Counted(seen, chunk);
      && WithoutBom(seen + chunk) == before + text
      && Newlines(before + text) == Newlines(before) + Newlines(Continued(before, text))
      && EndsWith(before + text, '\r')
         == if text == "" then EndsWith(before, '\r') else EndsWith(Continued(before, text), '\r')
  {
    var before, text := WithoutBom(seen), Counted(seen, chunk);
    if seen == "" { assert seen + chunk == chunk && before + text == text; } else { assert (seen + chunk)[0] == seen[0]; }
    NewlinesConcat(before, text);
    if text == "" { assert before + text == before; }
  }

  lemma LastOfTwo(a: string, b: string, c: char)
    ensures EndsWith(a + b, c) == if b == "" then EndsWith(a, c) else EndsWith(b, c)
    ensures b == "" ==> a + b == a
  {
    if b == "" { assert a + b == a; }
  }

  lemma OnlyMarkSeen(seen: string, chunk: string)
    requires Counted(seen, chunk) == "" && chunk != ""
    ensures WithoutBom(seen) == ""
  {
  }

  // `fed` is everything handed to the hash so far.
  class TextHasher {
    var first: bool
    var pendingCr: bool
    var endsWithNewline: bool
    var fed: string

    // The state after the text `seen`, however it was cut.
    ghost predicate Describes(seen: string)
      reads this
    {
      && first == (seen == "")
      && pendingCr == EndsWith(WithoutBom(seen), '\r')
      && fed == Newlines(WithoutBom(seen))
      && endsWithNewline == (fed == "" || EndsWith(fed, '\n'))
    }

    constructor ()
      ensures Describes("")
    {
      first, pendingCr, endsWithNewline, fed := true, false, true, "";
    }

    method Update(chunk: string, ghost seen: string)
      requires Describes(seen)
      modifies this
      ensures Describes(seen + chunk)
    {
      if |chunk| == 0 {
        assert seen + chunk == seen;
        return;
      }
      var text := chunk;
      if first {
        text := WithoutBom(text);
        first := false;
      }
      ghost var before, whole := WithoutBom(seen), text;
      ChunkAdds(seen, chunk);
      if text == "" { OnlyMarkSeen(seen, chunk); }
      if pendingCr && text != "" && text[0] == '\n' { text := text[1..]; }
      assert text == Continued(before, whole);
      pendingCr := EndsWith(text, '\r');
      var normalized := Newlines(text);
      NewlinesEnd(text);
      LastOfTwo(fed, normalized, '\n');
      if |normalized| > 0 {
        fed := fed + normalized;
        endsWithNewline := EndsWith(normalized, '\n');
      }
    }

    method Finish(ghost seen: string) returns (digested: string)
      requires Describes(seen)
      modifies this
      ensures digested == NormalizeText(seen)
    {
      if !endsWithNewline { fed := fed + "\n"; }
      digested := fed;
    }
  }

  datatype Chunk = Undecodable | Decoded(text: string)

  predicate IsText(c: Chunk) { c.Decoded? && '\0' !in c.text }

  predicate AllText(chunks: seq<Chunk>)
  {
    forall i | 0 <= i < |chunks| :: IsText(chunks[i])
  }

  function Texts(chunks: seq<Chunk>): (texts: seq<string>)
    requires AllText(chunks)
    ensures |texts| == |chunks| && forall i | 0 <= i < |chunks| :: texts[i] == chunks[i].text
  {
    seq(|chunks|, i requires 0 <= i < |chunks| => chunks[i].text)
  }

  lemma OneMoreText(chunks: seq<Chunk>, i: nat)
    requires i < |chunks| && AllText(chunks[..i]) && IsText(chunks[i])
    ensures AllText(chunks[..i + 1])
    ensures Concat(Texts(chunks[..i + 1])) == Concat(Texts(chunks[..i])) + chunks[i].text
  {
    assert forall k | 0 <= k < i :: chunks[..i + 1][k] == chunks[..i][k];
    assert Texts(chunks[..i + 1])[..i] == Texts(chunks[..i]);
  }

  // Text is hashed as its normal form, however it is cut into chunks; anything else has no
  // text hash.
  method NormalizedTextHash(chunks: seq<Chunk>, hash: string -> string) returns (r: Option<string>)
    ensures r.Some? <==> AllText(chunks)
    ensures r.Some? ==> r.value == hash(NormalizeText(Concat(Texts(chunks))))
  {
    var hasher := new TextHasher();
    ghost var seen := "";
    var i := 0;
    while i < |chunks|
      invariant i <= |chunks| && AllText(chunks[..i])
      invariant seen == Concat(Texts(chunks[..i])) && hasher.Describes(seen) && fresh(hasher)
    {
      if !IsText(chunks[i]) { return None; }
      hasher.Update(chunks[i].text, seen);
      OneMoreText(chunks, i);
      seen := seen + chunks[i].text;
      i := i + 1;
    }
    assert chunks[..i] == chunks;
    var digested := hasher.Finish(seen);
    r := Some(hash(digested));
  }

  // Two large files: one of them is no text, or they are identical exactly when the small-file
  // comparison finds their whole texts equal, however each is cut.
  method CompareLargeTexts(left: seq<Chunk>, right: seq<Chunk>, hash: string -> string) returns (identical: Option<bool>)
    requires forall s, t :: hash(s) == hash(t) ==> s == t
    ensures identical.None? <==> !AllText(left) || !AllText(right)
    ensures identical.Some? ==>
      (identical.value <==> NormalizeText(Concat(Texts(left))) == NormalizeText(Concat(Texts(right))))
  {
    var leftHash := NormalizedTextHash(left, hash);
    var rightHash := NormalizedTextHash(right, hash);
    if leftHash.None? || rightHash.None? { return None; }
    identical := Some(leftHash.value == rightHash.value);
  }

  // The chunks that are yielded concatenate to the newline-normalised text; the decoder has
  // already dropped a byte-order mark.
  method NormalizedXmlChunks(chunks: seq<string>) returns (yielded: seq<string>)
    ensures |yielded| == |chunks|
    ensures Concat(yielded) == Newlines(Concat(chunks))
  {
    var pendingCr := false;
    yielded := [];
    var i := 0;
    while i < |chunks|
      invariant i == |yielded| <= |chunks|
      invariant pendingCr == EndsWith(Concat(chunks[..i]), '\r')
      invariant Concat(yielded) == Newlines(Concat(chunks[..i]))
    {
      var value := chunks[i];
      ghost var seen := Concat(chunks[..i]);
      assert chunks[..i + 1][..i] == chunks[..i];
      assert Concat(chunks[..i + 1]) == seen + chunks[i];
      NewlinesConcat(seen, value);
      if value != "" {
        if pendingCr && value[0] == '\n' { value := value[1..]; }
        pendingCr := EndsWith(value, '\r');
      }
      yielded := yielded + [Newlines(value)];
      assert yielded[..i] + [Newlines(value)] == yielded;
      i := i + 1;
    }
    assert chunks[..i] == chunks;
  }
}
