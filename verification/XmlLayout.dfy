// Line breaks and indentation between elements never matter to either XML comparison, and
// visible text does.
module XmlLayout {
  import opened Options
  import opened StringKit
  import opened XmlSemantics
  import opened XmlDiff
  import opened XmlVerdict
  import opened XmlTree
  import opened LargeXml
  import opened XmlAgreement
  import opened XmlSameVerdict

  // What editors and formatters put between elements.
  predicate Layout(s: string)
  {
    forall i | 0 <= i < |s| :: s[i] in {'\n', '\r', '\t', ' '}
  }

  // The same elements, laid out differently at any depth.
  ghost predicate Relayouted(a: Element, b: Element)
  {
    && a.name == b.name && a.attributes == b.attributes && |a.children| == |b.children|
    && (a.text == b.text || (a.children != [] && Layout(a.text) && Layout(b.text)))
    && forall i | 0 <= i < |a.children| :: Relayouted(a.children[i], b.children[i])
  }

  lemma LayoutIsBlank(s: string)
    requires Layout(s)
    ensures IsBlank(s)
  {
  }

  lemma {:induction false} SameValue(a: Element, b: Element)
    requires Relayouted(a, b)
    ensures V(a) == V(b)
  {
    if IsScalar(a) {
      assert a == b;
    } else {
      forall i | 0 <= i < |a.children| ensures V(a.children[i]) == V(b.children[i]) {
        SameValue(a.children[i], b.children[i]);
      }
      assert Names(a.children) == Names(b.children) && Vs(a.children) == Vs(b.children);
      if a.text != b.text {
        LayoutIsBlank(a.text);
        LayoutIsBlank(b.text);
      }
      ValuesEqual(a, b);
    }
  }

  lemma {:induction false} SameSummary(a: Element, b: Element, path: string, pol: Policies, h: Hasher)
    requires Relayouted(a, b)
    ensures Summary(a, path, Sha(pol, h)) == Summary(b, path, Sha(pol, h))
    ensures FrameOf(a, path, Sha(pol, h)).children == FrameOf(b, path, Sha(pol, h)).children
    ensures SignificantText(FrameOf(a, path, Sha(pol, h)), h) == SignificantText(FrameOf(b, path, Sha(pol, h)), h)
  {
    var k := Sha(pol, h);
    forall i | 0 <= i < |a.children|
      ensures Summaries(a.children, path, k)[i] == Summaries(b.children, path, k)[i]
    {
      SameSummary(a.children[i], b.children[i], path + "." + a.children[i].name, pol, h);
    }
    assert Names(a.children) == Names(b.children) && Summaries(a.children, path, k) == Summaries(b.children, path, k);
    FrameOfChildren(a, path, k);
    FrameOfChildren(b, path, k);
    if a.text == b.text {
      assert FrameOf(a, path, k) == FrameOf(b, path, k);
    } else {
      LayoutIsBlank(a.text);
      LayoutIsBlank(b.text);
      FrameOfElement(a, path, pol, h);
      FrameOfElement(b, path, pol, h);
      assert Updates(FrameOf(a, path, k), pol, h) == Updates(FrameOf(b, path, k), pol, h);
    }
  }

  // Laying a document out differently changes neither comparison with any other document, in
  // either direction: the same changes from the one, the same digest from the other.
  lemma LayoutNeverMatters(a: Element, b: Element, other: Element, pol: Policies, h: Hasher)
    requires Relayouted(a, b)
    ensures CompareXml(Document(a.name, ParserValue(a)), Document(other.name, ParserValue(other)), pol)
      == CompareXml(Document(b.name, ParserValue(b)), Document(other.name, ParserValue(other)), pol)
    ensures CompareXml(Document(other.name, ParserValue(other)), Document(a.name, ParserValue(a)), pol)
      == CompareXml(Document(other.name, ParserValue(other)), Document(b.name, ParserValue(b)), pol)
    ensures SmallSame(a, other, pol) <==> SmallSame(b, other, pol)
    ensures DocumentOf(a, Sha(pol, h)) == DocumentOf(b, Sha(pol, h))
    ensures LargeSame(a, other, pol, h) <==> LargeSame(b, other, pol, h)
  {
    SameValue(a, b);
    CleanDocument(a);
    CleanDocument(b);
    SameSummary(a, b, a.name, pol, h);
  }

  lemma CleanDocument(e: Element)
    ensures RemoveFormattingWhitespace(Document(e.name, ParserValue(e))) == Document(e.name, V(e))
  {
    assert RemoveFormattingWhitespace(Document(e.name, ParserValue(e))).fields == Document(e.name, V(e)).fields;
  }

  // ---- Visible text ----

  predicate Visible(s: string) { exists i :: 0 <= i < |s| && '!' <= s[i] <= '~' }

  lemma VisibleIsText(s: string)
    requires Visible(s)
    ensures !IsBlank(s)
  {
    var i :| 0 <= i < |s| && '!' <= s[i] <= '~';
    assert !IsWhitespace(s[i]);
  }

  ghost predicate TextDiffers(a: Element, b: Element)
  {
    a.text != b.text && (Visible(a.text) || Visible(b.text))
  }

  lemma DifferentTextIsSeen(a: Element, b: Element)
    requires TextDiffers(a, b)
    ensures !SameAttributesAndText(a, b)
    ensures IsScalar(a) || IsScalar(b) ==> V(a) != V(b)
  {
    if Visible(a.text) { VisibleIsText(a.text); } else { VisibleIsText(b.text); }
  }

  lemma SimpleRootsDiffer(a: Element, b: Element, pol: Policies, h: Hasher)
    requires Ideal(h) && TopLevelUnordered(pol) && WellNamed(a) && WellNamed(b)
    requires a.name != b.name || (V(a) != V(b) && (IsScalar(a) || IsScalar(b)))
    ensures !SmallSame(a, b, pol) && !LargeSame(a, b, pol, h)
  {
    SimpleRootsAgree(a, b, pol, h);
    SmallVerdict(a, b, pol);
    if a.name == b.name { assert V(a).Text? || V(b).Text?; }
  }

  // Text beside the children of the root that is visible in one document and not the same in
  // the other is a difference for both comparisons.
  lemma VisibleTextMatters(a: Element, b: Element, pol: Policies, h: Hasher)
    requires Ideal(h) && TopLevelUnordered(pol) && WellNamed(a) && WellNamed(b)
    requires TextDiffers(a, b)
    ensures !SmallSame(a, b, pol) && !LargeSame(a, b, pol, h)
  {
    DifferentTextIsSeen(a, b);
    if a.name != b.name || IsScalar(a) || IsScalar(b) {
      SimpleRootsDiffer(a, b, pol, h);
    } else {
      RootVerdicts(a, b, pol, h);
    }
  }
}
