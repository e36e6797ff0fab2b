// The 18-character form of a Salesforce org id (src/salesforce/org-identifier.ts): three
// check characters record which of the fifteen letters are upper case.
module OrgIdentifier {
  import opened Options

  const ALPHABET: string := "ABCDEFGHIJKLMNOPQRSTUVWXYZ012345"

  predicate IsAlphanumeric(c: char) { 'A' <= c <= 'Z' || 'a' <= c <= 'z' || '0' <= c <= '9' }

  predicate IsUpper(c: char) { 'A' <= c <= 'Z' }

  predicate WellFormed(value: string)
  {
    && (|value| == 15 || |value| == 18)
    && value[..3] == "00D" && forall i | 3 <= i < |value| :: IsAlphanumeric(value[i])
  }

  // 1 << position
  function Bit(position: nat): nat
  {
    if position == 0 then 1 else 2 * Bit(position - 1)
  }

  // The upper-case letters among the first `n` of a segment, as a number.
  function Bits(segment: string, n: nat): nat
    requires n <= |segment|
  {
    if n == 0 then 0 else Bits(segment, n - 1) + if IsUpper(segment[n - 1]) then Bit(n - 1) else 0
  }

  lemma {:induction false} BitsAreBounded(segment: string, n: nat)
    requires n <= |segment|
    ensures Bits(segment, n) < Bit(n)
  {
    if n > 0 { BitsAreBounded(segment, n - 1); }
  }

  function CheckChar(segment: string): char
    requires |segment| == 5
  {
    BitsAreBounded(segment, 5);
    assert Bit(5) == 32;
    ALPHABET[Bits(segment, 5)]
  }

  function Suffix(original: string): (s: string)
    requires |original| == 15
    ensures |s| == 3
  {
    [CheckChar(original[0..5]), CheckChar(original[5..10]), CheckChar(original[10..15])]
  }

  // None stands for the thrown errors.
  function Normalized(value: string): Option<string>
  {
    if !WellFormed(value) then None
    else
      var normalized := value[..15] + Suffix(value[..15]);
      if |value| == 18 && value != normalized then None else Some(normalized)
  }

  method NormalizeSalesforceOrgId(value: string) returns (r: Option<string>)
    ensures r == Normalized(value)
  {
    if !WellFormed(value) { return None; }
    var original := value[..15];
    var suffix := "";
    var segment := 0;
    while segment < 3
      invariant segment <= 3 && suffix == Suffix(original)[..segment]
    {
      var part := original[segment * 5..segment * 5 + 5];
      var bits, position := 0, 0;
      while position < 5
        invariant position <= 5 && bits == Bits(part, position)
      {
        var character := original[segment * 5 + position];
        assert character == part[position];
        if IsUpper(character) { bits := bits + Bit(position); }
        position := position + 1;
      }
      BitsAreBounded(part, 5);
      assert Bit(5) == 32;
      assert Suffix(original)[segment] == CheckChar(part);
      suffix := suffix + [ALPHABET[bits]];
      segment := segment + 1;
    }
    assert suffix == Suffix(original);
    var normalized := original + suffix;
    if |value| == 18 && value != normalized { return None; }
    return Some(normalized);
  }

  // ---- Case is recovered from the check characters ----

  lemma {:induction false} BitsDecideCase(a: string, b: string, n: nat)
    requires n <= |a| && n <= |b| && Bits(a, n) == Bits(b, n)
    ensures forall i | 0 <= i < n :: IsUpper(a[i]) <==> IsUpper(b[i])
  {
    if n > 0 {
      BitsAreBounded(a, n - 1);
      BitsAreBounded(b, n - 1);
      BitsDecideCase(a, b, n - 1);
    }
  }

  // ---- What a check character says ----

  // Its place in the alphabet of check characters: A to Z, then 0 to 5.
  function Place(c: char): int
  {
    if 'A' <= c <= 'Z' then c as int - 'A' as int else c as int - '0' as int + 26
  }

  // Digit `i` of the place in binary, the lowest first.
  predicate BitSet(place: int, i: nat)
    requires i < 5
  {
    (place / [1, 2, 4, 8, 16][i]) % 2 == 1
  }

  function One(c: char): nat { if IsUpper(c) then 1 else 0 }

  lemma BitsOfFive(segment: string)
    requires |segment| == 5
    ensures Bits(segment, 5) == One(segment[0]) + 2 * One(segment[1]) + 4 * One(segment[2]) + 8 * One(segment[3]) + 16 * One(segment[4])
  {
    assert Bits(segment, 1) == One(segment[0]);
    assert Bits(segment, 2) == One(segment[0]) + 2 * One(segment[1]);
    assert Bits(segment, 3) == One(segment[0]) + 2 * One(segment[1]) + 4 * One(segment[2]);
    assert Bit(3) == 8;
    assert Bit(4) == 16;
  }

  lemma PlaceOfCheckChar(segment: string)
    requires |segment| == 5
    ensures Place(CheckChar(segment)) == Bits(segment, 5)
  {
    BitsAreBounded(segment, 5);
    assert Bit(5) == 32;
    assert forall k | 0 <= k < 26 :: ALPHABET[k] as int == 'A' as int + k;
    assert forall k | 26 <= k < 32 :: ALPHABET[k] as int == '0' as int + (k - 26);
  }

  // Bit `i` of a check character is set exactly if letter `i` of its segment is upper case.
  lemma CheckCharSaysUpper(segment: string, i: nat)
    requires |segment| == 5 && i < 5
    ensures BitSet(Place(CheckChar(segment)), i) <==> IsUpper(segment[i])
  {
    PlaceOfCheckChar(segment);
    BitsOfFive(segment);
  }

  // So the last three characters of a normal form tell of each of the first fifteen, segment
  // by segment, whether it is an upper-case letter.
  lemma SuffixSaysUpper(value: string, s: nat, i: nat)
    requires Normalized(value).Some? && s < 3 && i < 5
    ensures |Normalized(value).value| == 18
    ensures BitSet(Place(Normalized(value).value[15 + s]), i) <==> IsUpper(Normalized(value).value[5 * s + i])
  {
    var original := value[..15];
    assert Normalized(value).value[15 + s] == Suffix(original)[s];
    var segment := original[s * 5..s * 5 + 5];
    assert Suffix(original)[s] == CheckChar(segment);
    assert segment[i] == Normalized(value).value[5 * s + i];
    CheckCharSaysUpper(segment, i);
  }

  function LowerChar(c: char): char
  {
    if IsUpper(c) then (c as int + 32) as char else c
  }

  ghost predicate SameIgnoringCase(a: string, b: string)
  {
    |a| == |b| && forall i | 0 <= i < |a| :: LowerChar(a[i]) == LowerChar(b[i])
  }

  lemma AlphabetIgnoresNoCase(i: nat, j: nat)
    requires i < 32 && j < 32 && LowerChar(ALPHABET[i]) == LowerChar(ALPHABET[j])
    ensures i == j
  {
    assert forall k | 0 <= k < 26 :: ALPHABET[k] as int == 'A' as int + k;
    assert forall k | 26 <= k < 32 :: ALPHABET[k] as int == '0' as int + (k - 26);
  }

  lemma SameCheckSameCase(a: string, b: string)
    requires |a| == 5 && |b| == 5 && LowerChar(CheckChar(a)) == LowerChar(CheckChar(b))
    ensures forall i | 0 <= i < 5 :: IsUpper(a[i]) <==> IsUpper(b[i])
  {
    BitsAreBounded(a, 5);
    BitsAreBounded(b, 5);
    assert Bit(5) == 32;
    AlphabetIgnoresNoCase(Bits(a, 5), Bits(b, 5));
    BitsDecideCase(a, b, 5);
  }

  // Ids that differ only by case are told apart by the check characters even when case is
  // ignored: two 15-character ids whose long forms agree ignoring case are equal.
  lemma LongFormIsCaseSafe(a: string, b: string)
    requires |a| == 15 && |b| == 15 && WellFormed(a) && WellFormed(b)
    requires SameIgnoringCase(Normalized(a).value, Normalized(b).value)
    ensures a == b
  {
    var na, nb := Normalized(a).value, Normalized(b).value;
    assert a[..15] == a && b[..15] == b;
    assert na == a + Suffix(a) && nb == b + Suffix(b);
    forall i | 0 <= i < 3 ensures LowerChar(Suffix(a)[i]) == LowerChar(Suffix(b)[i]) {
      assert na[15 + i] == Suffix(a)[i] && nb[15 + i] == Suffix(b)[i];
    }
    assert Suffix(a)[0] == CheckChar(a[0..5]) && Suffix(b)[0] == CheckChar(b[0..5]);
    assert Suffix(a)[1] == CheckChar(a[5..10]) && Suffix(b)[1] == CheckChar(b[5..10]);
    assert Suffix(a)[2] == CheckChar(a[10..15]) && Suffix(b)[2] == CheckChar(b[10..15]);
    SameCheckSameCase(a[0..5], b[0..5]);
    SameCheckSameCase(a[5..10], b[5..10]);
    SameCheckSameCase(a[10..15], b[10..15]);
    SameCaseEverywhere(a, b);
    forall i | 0 <= i < 15 ensures a[i] == b[i] {
      assert na[i] == a[i] && nb[i] == b[i];
    }
  }

  lemma SameCaseEverywhere(a: string, b: string)
    requires |a| == 15 && |b| == 15
    requires forall i | 0 <= i < 5 :: IsUpper(a[0..5][i]) <==> IsUpper(b[0..5][i])
    requires forall i | 0 <= i < 5 :: IsUpper(a[5..10][i]) <==> IsUpper(b[5..10][i])
    requires forall i | 0 <= i < 5 :: IsUpper(a[10..15][i]) <==> IsUpper(b[10..15][i])
    ensures forall i | 0 <= i < 15 :: IsUpper(a[i]) <==> IsUpper(b[i])
  {
    forall i | 0 <= i < 15 ensures IsUpper(a[i]) <==> IsUpper(b[i]) {
      if i < 5 { assert a[0..5][i] == a[i] && b[0..5][i] == b[i]; }
      else if i < 10 { assert a[5..10][i - 5] == a[i] && b[5..10][i - 5] == b[i]; }
      else { assert a[10..15][i - 10] == a[i] && b[10..15][i - 10] == b[i]; }
    }
  }

  // Normalising keeps the first fifteen characters and is idempotent; an 18-character id is
  // accepted exactly when its check characters are right.
  lemma NormalizingIsStable(value: string)
    requires WellFormed(value)
    ensures Normalized(value).Some? <==> (|value| == 15 || value[15..] == Suffix(value[..15]))
    ensures Normalized(value).Some? ==>
      var n := Normalized(value).value;
      |n| == 18 && n[..15] == value[..15] && (|value| == 18 ==> n == value)
  {
    var normalized := value[..15] + Suffix(value[..15]);
    assert normalized[..15] == value[..15] && normalized[15..] == Suffix(value[..15]);
    if |value| == 18 { assert value == value[..15] + value[15..]; }
  }

  lemma CheckCharIsAlphanumeric(segment: string)
    requires |segment| == 5
    ensures IsAlphanumeric(CheckChar(segment))
  {
    BitsAreBounded(segment, 5);
    assert Bit(5) == 32;
    assert forall k | 0 <= k < 26 :: ALPHABET[k] as int == 'A' as int + k;
    assert forall k | 26 <= k < 32 :: ALPHABET[k] as int == '0' as int + (k - 26);
  }

  lemma NormalizingTwice(value: string)
    requires Normalized(value).Some?
    ensures Normalized(Normalized(value).value) == Normalized(value)
  {
    var n := Normalized(value).value;
    var o := value[..15];
    NormalizingIsStable(value);
    CheckCharIsAlphanumeric(o[0..5]);
    CheckCharIsAlphanumeric(o[5..10]);
    CheckCharIsAlphanumeric(o[10..15]);
    assert n == o + Suffix(o) && n[..3] == o[..3] == value[..3];
    forall i | 3 <= i < |n| ensures IsAlphanumeric(n[i]) {
      if i < 15 { assert n[i] == value[i]; } else { assert n[i] == Suffix(o)[i - 15]; }
    }
  }
}
