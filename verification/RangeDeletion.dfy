// The second pass of src/metadata/package-child-filter.ts: the text outside the selected
// ranges is written while the document goes by in chunks.
module RangeDeletion {
  import opened TextNormalization

  datatype Range = Range(start: nat, end: nat, key: string)

  // In order, without overlap, and inside a text of length `n`.
  ghost predicate Sorted(ranges: seq<Range>, n: nat)
  {
    && (forall i | 0 <= i < |ranges| :: ranges[i].start < ranges[i].end <= n)
    && (forall i, j | 0 <= i < j < |ranges| :: ranges[i].end <= ranges[j].start)
  }

  predicate Removed(ranges: seq<Range>, p: nat)
  {
    exists i :: 0 <= i < |ranges| && ranges[i].start <= p < ranges[i].end
  }

  // The first `n` characters without those in a range.
  function Outside(text: string, ranges: seq<Range>, n: nat): string
    requires n <= |text|
  {
    if n == 0 then ""
    else Outside(text, ranges, n - 1) + if Removed(ranges, n - 1) then "" else [text[n - 1]]
  }

  lemma {:induction false} OutsideKeeps(text: string, ranges: seq<Range>, a: nat, b: nat)
    requires a <= b <= |text| && forall p: nat | a <= p < b :: !Removed(ranges, p)
    ensures Outside(text, ranges, b) == Outside(text, ranges, a) + text[a..b]
  {
    if a < b {
      OutsideKeeps(text, ranges, a, b - 1);
      assert text[a..b] == text[a..b - 1] + [text[b - 1]];
    }
  }

  lemma {:induction false} OutsideDrops(text: string, ranges: seq<Range>, a: nat, b: nat)
    requires a <= b <= |text| && forall p: nat | a <= p < b :: Removed(ranges, p)
    ensures Outside(text, ranges, b) == Outside(text, ranges, a)
  {
    if a < b { OutsideDrops(text, ranges, a, b - 1); }
  }

  // Between two neighbouring ranges nothing is removed.
  lemma GapIsKept(ranges: seq<Range>, n: nat, index: nat, a: nat, b: nat)
    requires Sorted(ranges, n) && index <= |ranges|
    requires forall i | 0 <= i < index :: ranges[i].end <= a
    requires index < |ranges| ==> b <= ranges[index].start
    ensures forall p: nat | a <= p < b :: !Removed(ranges, p)
  {
  }

  lemma RangeIsDropped(ranges: seq<Range>, index: nat, a: nat, b: nat)
    requires index < |ranges| && ranges[index].start <= a && b <= ranges[index].end
    ensures forall p: nat | a <= p < b :: Removed(ranges, p)
  {
  }

  // The ranges before `index` are behind the cursor, the others end after it.
  ghost predicate Reached(ranges: seq<Range>, index: nat, cursor: nat)
  {
    && index <= |ranges| && (forall k | 0 <= k < index :: ranges[k].end <= cursor)
    && (index < |ranges| ==> cursor < ranges[index].end)
  }

  // One range met at the cursor: what precedes it is written, what it covers is skipped.
  lemma SkipRange(text: string, ranges: seq<Range>, index: nat, cursor: nat, end: nat)
    requires Sorted(ranges, |text|) && Reached(ranges, index, cursor) && index < |ranges|
    requires cursor <= end <= |text| && ranges[index].start < end
    ensures var next := if end < ranges[index].end then end else ranges[index].end;
      && cursor <= next <= end
      && Outside(text, ranges, next) == Outside(text, ranges, cursor)
           + (if ranges[index].start > cursor then text[cursor..ranges[index].start] else "")
      && (ranges[index].end <= end ==> Reached(ranges, index + 1, next))
      && (ranges[index].end > end ==> Reached(ranges, index, next))
  {
    var range := ranges[index];
    var next := if end < range.end then end else range.end;
    var from := if range.start > cursor then range.start else cursor;
    if range.start > cursor {
      GapIsKept(ranges, |text|, index, cursor, range.start);
      OutsideKeeps(text, ranges, cursor, range.start);
    }
    RangeIsDropped(ranges, index, from, next);
    OutsideDrops(text, ranges, from, next);
  }

  lemma WriteRest(text: string, ranges: seq<Range>, index: nat, cursor: nat, end: nat)
    requires Sorted(ranges, |text|) && Reached(ranges, index, cursor) && cursor <= end <= |text|
    requires index < |ranges| ==> end <= ranges[index].start
    ensures Outside(text, ranges, end) == Outside(text, ranges, cursor) + text[cursor..end]
  {
    GapIsKept(ranges, |text|, index, cursor, end);
    OutsideKeeps(text, ranges, cursor, end);
  }

  lemma Piece(text: string, chunk: string, position: nat, a: nat, b: nat)
    requires position <= a <= b <= position + |chunk| <= |text| && text[position..position + |chunk|] == chunk
    ensures chunk[a - position..b - position] == text[a..b]
  {
    var part := text[position..position + |chunk|];
    assert forall k | 0 <= k < |chunk| :: part[k] == text[position + k];
    assert forall k | 0 <= k < b - a :: part[a - position..b - position][k] == part[a - position + k] == text[a..b][k];
  }

  // The part of a chunk that one range met at the cursor lets through.
  function Passed(chunk: string, position: nat, cursor: nat, start: nat): string
    requires position <= cursor && (start > cursor ==> start <= position + |chunk|)
  {
    if start > cursor then chunk[cursor - position..start - position] else ""
  }

  lemma PassRange(text: string, chunk: string, position: nat, ranges: seq<Range>, index: nat, cursor: nat, sofar: string)
    requires Sorted(ranges, |text|) && Reached(ranges, index, cursor) && index < |ranges|
    requires position + |chunk| <= |text| && text[position..position + |chunk|] == chunk
    requires position <= cursor <= position + |chunk| && ranges[index].start < position + |chunk|
    requires Outside(text, ranges, cursor) == Outside(text, ranges, position) + sofar
    ensures var end := position + |chunk|;
      var next := if end < ranges[index].end then end else ranges[index].end;
      Outside(text, ranges, next)
      == Outside(text, ranges, position) + (sofar + Passed(chunk, position, cursor, ranges[index].start))
  {
    SkipRange(text, ranges, index, cursor, position + |chunk|);
    if ranges[index].start > cursor { Piece(text, chunk, position, cursor, ranges[index].start); }
  }

  lemma PassRest(text: string, chunk: string, position: nat, ranges: seq<Range>, index: nat, cursor: nat, sofar: string)
    requires Sorted(ranges, |text|) && Reached(ranges, index, cursor)
    requires position + |chunk| <= |text| && text[position..position + |chunk|] == chunk
    requires position <= cursor <= position + |chunk|
    requires index < |ranges| ==> position + |chunk| <= ranges[index].start
    requires Outside(text, ranges, cursor) == Outside(text, ranges, position) + sofar
    ensures Outside(text, ranges, position + |chunk|)
      == Outside(text, ranges, position) + (sofar + chunk[cursor - position..])
  {
    WriteRest(text, ranges, index, cursor, position + |chunk|);
    Piece(text, chunk, position, cursor, position + |chunk|);
    assert chunk[cursor - position..|chunk|] == chunk[cursor - position..];
  }

  // The part of one chunk that is written, and the range reached by its end.
  method WriteChunk(chunk: string, position: nat, ranges: seq<Range>, start: nat, ghost text: string)
    returns (written: string, index: nat)
    requires Sorted(ranges, |text|) && position + |chunk| <= |text| && text[position..position + |chunk|] == chunk
    requires Reached(ranges, start, position)
    ensures Outside(text, ranges, position + |chunk|) == Outside(text, ranges, position) + written
    ensures Reached(ranges, index, position + |chunk|)
  {
    var end := position + |chunk|;
    var cursor := position;
    index, written := start, "";
    while index < |ranges| && ranges[index].start < end
      invariant position <= cursor <= end && Reached(ranges, index, cursor)
      invariant Outside(text, ranges, cursor) == Outside(text, ranges, position) + written
      decreases |ranges| - index
    {
      var range := ranges[index];
      SkipRange(text, ranges, index, cursor, end);
      PassRange(text, chunk, position, ranges, index, cursor, written);
      if range.start > cursor {
        written := written + chunk[cursor - position..range.start - position];
      }
      cursor := if end < range.end then end else range.end;
      if range.end > end { break; }
      index := index + 1;
    }
    if cursor < end {
      PassRest(text, chunk, position, ranges, index, cursor, written);
      written := written + chunk[cursor - position..];
    }
  }

  // What is written is exactly the text outside the ranges, for every way of cutting it.
  method DeleteRanges(chunks: seq<string>, ranges: seq<Range>) returns (written: string)
    requires Sorted(ranges, |Concat(chunks)|)
    ensures written == Outside(Concat(chunks), ranges, |Concat(chunks)|)
  {
    ghost var text := Concat(chunks);
    var position, index, i := 0, 0, 0;
    written := "";
    while i < |chunks|
      invariant i <= |chunks| && position == |Concat(chunks[..i])| <= |text|
      invariant written == Outside(text, ranges, position) && Reached(ranges, index, position)
    {
      NextChunk(chunks, i);
      var piece: string;
      piece, index := WriteChunk(chunks[i], position, ranges, index, text);
      written := written + piece;
      position := position + |chunks[i]|;
      i := i + 1;
    }
    assert chunks[..i] == chunks;
  }

  lemma NextChunk(chunks: seq<string>, i: nat)
    requires i < |chunks|
    ensures Concat(chunks[..i + 1]) == Concat(chunks[..i]) + chunks[i]
    ensures Concat(chunks[..i + 1]) <= Concat(chunks)
    ensures Concat(chunks)[|Concat(chunks[..i])|..|Concat(chunks[..i + 1])|] == chunks[i]
  {
    assert chunks[..i + 1][..i] == chunks[..i];
    PrefixConcat(chunks, i + 1);
  }

  lemma {:induction false} PrefixConcat(chunks: seq<string>, i: nat)
    requires i <= |chunks|
    ensures Concat(chunks[..i]) <= Concat(chunks)
    decreases |chunks| - i
  {
    if i == |chunks| {
      assert chunks[..i] == chunks;
    } else {
      assert chunks[..i + 1][..i] == chunks[..i];
      PrefixConcat(chunks, i + 1);
    }
  }
}
