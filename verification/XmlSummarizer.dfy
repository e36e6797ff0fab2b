// The streaming summariser as the program runs it: parser callbacks push and pop frames,
// and closing an element loops over its groups of children and its identity keys.
module XmlSummarizer {
  import opened Options
  import opened StringKit
  import opened XmlSemantics
  import opened XmlTree
  import opened LargeXml
  import opened XmlSameVerdict
  import XmlAgreement
  import XmlDiff
  import XmlDisagreement

  // ---- The loops of closing an element ----

  method HashUpdates(f: Frame, pol: Policies, h: Hasher) returns (us: seq<Update>)
    ensures us == Updates(f, pol, h)
  {
    var groups := HashGroups(Sort(Keys(f.children)), f, pol);
    us := [Header(f.name, f.attributes, SignificantText(f, h))] + groups;
  }

  method HashGroups(order: seq<string>, f: Frame, pol: Policies) returns (us: seq<Update>)
    ensures us == GroupUpdates(order, f, pol)
  {
    us := [];
    for i := 0 to |order|
      invariant us == GroupUpdates(order, f, pol)[..i]
    {
      var digests := HashGroup(Get(f.children, order[i]), f.xmlPath + "." + order[i], pol);
      us := us + [Group(order[i], digests)];
    }
  }

  method HashGroup(nodes: seq<NodeSummary>, groupPath: string, pol: Policies) returns (digests: seq<string>)
    ensures digests == GroupDigests(nodes, groupPath, pol)
  {
    digests := Digests(nodes);
    if IgnoresOrder(pol, groupPath) && UniqueIdentities(nodes) { digests := Sort(digests); }
  }

  // The identity values found under `keys`; in the generic scheme the first one is enough.
  method CollectIdentities(children: ChildMap, keys: seq<string>, first: bool) returns (identities: seq<(string, string)>)
    ensures var all := IdentityTokens(children, keys);
      identities == if first && all != [] then all[..1] else all
  {
    ghost var all := IdentityTokens(children, keys);
    identities := [];
    var i := 0;
    while i < |keys|
      invariant i <= |keys|
      invariant identities + IdentityTokens(children, keys[i..]) == all
      invariant first ==> identities == []
    {
      assert keys[i..][1..] == keys[i + 1..];
      var values := Get(children, keys[i]);
      if |values| == 1 && values[0].scalar {
        identities := identities + [(keys[i], IdentityToken(values[0]))];
        if first {
          assert all == identities + IdentityTokens(children, keys[i + 1..]);
          return;
        }
      }
      i := i + 1;
    }
    assert keys[i..] == [];
  }

  method FindIdentity(f: Frame, pol: Policies) returns (identity: Option<string>)
    ensures identity == FrameIdentity(f, pol)
  {
    var identities := CollectIdentities(f.children, IdentityKeysAt(pol, f.xmlPath), FirstKeyOnly(pol, f.xmlPath));
    identity := if identities == [] then None else Some(XmlDiff.JoinPairs(identities));
  }

  // ---- The callbacks ----

  class Summarizer {
    const pol: Policies
    const h: Hasher
    var stack: seq<Frame>
    var retained: int
    var result: Option<DocumentSummary>

    ghost function Now(): State
      reads this
    {
      State(stack, retained, result)
    }

    constructor (pol: Policies, h: Hasher)
      ensures this.pol == pol && this.h == h && Now() == LargeXml.START
    {
      this.pol, this.h := pol, h;
      stack, retained, result := [], 0, None;
    }

    method OpenTag(name: string, attributes: map<string, string>) returns (thrown: bool)
      modifies this
      ensures thrown <==> OnOpen(old(Now()), name, attributes).None?
      ensures !thrown ==> Now() == OnOpen(old(Now()), name, attributes).value
    {
      if |stack| >= MAX_DEPTH || (stack == [] && result.Some?) { return true; }
      var xmlPath := if stack == [] then name else stack[|stack| - 1].xmlPath + "." + name;
      stack := stack + [Frame(name, xmlPath, attributes, [], "", false, "")];
      return false;
    }

    method Text(value: string)
      modifies this
      ensures OnCharacters(old(Now()), value) == Some(Now())
    {
      if stack == [] { return; }
      var frame := stack[|stack| - 1];
      frame := frame.(text := frame.text + value);
      if !IsBlank(value) { frame := frame.(nonWhitespace := true); }
      if |frame.preview| < PREVIEW_LENGTH {
        frame := frame.(preview := frame.preview + Take(value, PREVIEW_LENGTH - |frame.preview|));
      }
      stack := stack[..|stack| - 1] + [frame];
    }

    method CloseTag() returns (thrown: bool)
      requires stack != []
      modifies this
      ensures thrown <==> OnClose(old(Now()), Sha(pol, h)).None?
      ensures !thrown ==> Now() == OnClose(old(Now()), Sha(pol, h)).value
    {
      var frame := stack[|stack| - 1];
      stack := stack[..|stack| - 1];
      var scalar := frame.children == [] && frame.attributes == map[];
      var updates := HashUpdates(frame, pol, h);
      var identity := FindIdentity(frame, pol);
      var digest := h.node(updates);
      var summary := NodeSummary(digest, identity, if scalar then frame.preview else "", scalar);
      if stack == [] {
        result := Some(DocumentSummary(frame.name, digest, frame.attributes, SignificantText(frame, h), frame.children));
        return false;
      }
      var i := 0;
      while i < |frame.children|
        invariant i <= |frame.children|
        invariant retained - Total(frame.children[i..]) == old(retained) - Total(frame.children)
        invariant stack == old(stack)[..|old(stack)| - 1] && result == old(result)
      {
        assert frame.children[i..][1..] == frame.children[i + 1..];
        retained := retained - |frame.children[i].nodes|;
        i := i + 1;
      }
      retained := retained + 1;
      if retained > MAX_RETAINED_NODES { return true; }
      var parent := stack[|stack| - 1];
      stack := stack[..|stack| - 1] + [parent.(children := Append(parent.children, frame.name, summary))];
      return false;
    }

    method Handle(e: Event) returns (thrown: bool)
      modifies this
      ensures thrown <==> Step(old(Now()), e, Sha(pol, h)).None?
      ensures !thrown ==> Now() == Step(old(Now()), e, Sha(pol, h)).value
    {
      match e
      case Open(name, attributes) => thrown := OpenTag(name, attributes);
      case Characters(value) =>
        Text(value);
        thrown := false;
      case Close =>
        if stack == [] { return true; }
        thrown := CloseTag();
    }
  }

  // summarizeXml: the summary of the document's tree, or an error exactly when the tree
  // exceeds the limits, for every way its text is delivered.
  method SummarizeXml(m: Markup, pol: Policies, h: Hasher) returns (r: Option<DocumentSummary>)
    ensures r.Some? <==> Fits(TreeOf(m), 0, 0)
    ensures r.Some? ==> r.value == DocumentOf(TreeOf(m), Sha(pol, h))
  {
    var summarizer := new Summarizer(pol, h);
    var events := Events(m);
    var i := 0;
    StackMachineSummarizes(m, Sha(pol, h));
    while i < |events|
      invariant i <= |events| && fresh(summarizer) && summarizer.pol == pol && summarizer.h == h
      invariant Run(LargeXml.START, events, Sha(pol, h)) == Run(summarizer.Now(), events[i..], Sha(pol, h))
    {
      var thrown := summarizer.Handle(events[i]);
      assert events[i..][1..] == events[i + 1..];
      if thrown { return None; }
      i := i + 1;
    }
    if summarizer.result.None? || summarizer.stack != [] { return None; }
    return summarizer.result;
  }

  // compareLargeXml: the verdict compareXml gives to the same two documents.
  method CompareLargeXml(left: Markup, right: Markup, pol: Policies, h: Hasher) returns (equal: Option<bool>)
    requires XmlAgreement.Ideal(h) && TopLevelUnordered(pol) && WellNamed(TreeOf(left)) && WellNamed(TreeOf(right))
    ensures equal.Some? <==> Fits(TreeOf(left), 0, 0) && Fits(TreeOf(right), 0, 0)
    ensures equal.Some? && (SameTests(TreeOf(left), pol, h) || SameTests(TreeOf(right), pol, h)) ==>
      (equal.value <==> SmallSame(TreeOf(left), TreeOf(right), pol))
    ensures equal.Some? ==> (equal.value <==> LargeSame(TreeOf(left), TreeOf(right), pol, h))
  {
    var l := SummarizeXml(left, pol, h);
    if l.None? { return None; }
    var r := SummarizeXml(right, pol, h);
    if r.None? { return None; }
    equal := Some(l.value.digest == r.value.digest);
    if SameTests(TreeOf(left), pol, h) {
      LargeAgreesWithSmall(TreeOf(left), TreeOf(right), pol, h);
    } else if SameTests(TreeOf(right), pol, h) {
      LargeAgreesWithSmall(TreeOf(right), TreeOf(left), pol, h);
      XmlDisagreement.SmallIsSymmetric(TreeOf(left), TreeOf(right), pol);
    }
  }
}
