// The streaming comparison of src/metadata/large-xml-diff.ts: parser callbacks drive a
// stack of open elements, and a closed element survives only as a digest, an identity
// and a short preview.
module LargeXml {
  import opened Options
  import opened StringKit
  import opened XmlSemantics
  import opened XmlTree
  import XmlDiff

  const PREVIEW_LENGTH: nat := 500
  const MAX_RETAINED_NODES: nat := 100_000
  const MAX_DEPTH: nat := 128

  // One call of hash.update while an element is closed.
  datatype Update =
    | Header(name: string, attributes: map<string, string>, significantText: string)
    | Group(name: string, digests: seq<string>)

  // The two uses of SHA-256: over the updates of one element, and over its text.
  datatype Hasher = Hasher(node: seq<Update> -> string, text: string -> string)

  datatype NodeSummary = NodeSummary(digest: string, identity: Option<string>, preview: string, scalar: bool)

  // The Map of a frame, in insertion order: the closed children, grouped by name.
  datatype Siblings = Siblings(name: string, nodes: seq<NodeSummary>)

  type ChildMap = seq<Siblings>

  datatype Frame = Frame(
    name: string, xmlPath: string, attributes: map<string, string>,
    children: ChildMap, text: string, nonWhitespace: bool, preview: string)

  datatype DocumentSummary = DocumentSummary(
    name: string, digest: string, attributes: map<string, string>, text: string, children: ChildMap)

  datatype Event = Open(name: string, attributes: map<string, string>) | Characters(value: string) | Close

  // ---- The child map ----

  function Keys(m: ChildMap): (names: seq<string>)
    ensures |names| == |m| && forall i | 0 <= i < |m| :: names[i] == m[i].name
  {
    seq(|m|, i requires 0 <= i < |m| => m[i].name)
  }

  function Get(m: ChildMap, name: string): seq<NodeSummary>
  {
    if m == [] then [] else if m[0].name == name then m[0].nodes else Get(m[1..], name)
  }

  // parent.children.set(name, [...(parent.children.get(name) ?? []), node])
  function Append(m: ChildMap, name: string, node: NodeSummary): ChildMap
  {
    if m == [] then [Siblings(name, [node])]
    else if m[0].name == name then [Siblings(name, m[0].nodes + [node])] + m[1..]
    else [m[0]] + Append(m[1..], name, node)
  }

  function Total(m: ChildMap): nat
  {
    if m == [] then 0 else |m[0].nodes| + Total(m[1..])
  }

  // ---- Closing an element ----

  predicate UniqueIdentities(nodes: seq<NodeSummary>)
  {
    && (forall i | 0 <= i < |nodes| :: nodes[i].identity.Some?)
    && (forall i, j | 0 <= i < j < |nodes| :: nodes[i].identity != nodes[j].identity)
  }

  predicate ScalarFrame(f: Frame)
  {
    f.children == [] && f.attributes == map[]
  }

  function SignificantText(f: Frame, h: Hasher): string
  {
    if ScalarFrame(f) || f.nonWhitespace then h.text(f.text) else ""
  }

  function Digests(nodes: seq<NodeSummary>): (ds: seq<string>)
    ensures |ds| == |nodes| && forall i | 0 <= i < |nodes| :: ds[i] == nodes[i].digest
  {
    seq(|nodes|, i requires 0 <= i < |nodes| => nodes[i].digest)
  }

  function GroupDigests(nodes: seq<NodeSummary>, groupPath: string, pol: Policies): seq<string>
  {
    if IgnoresOrder(pol, groupPath) && UniqueIdentities(nodes) then Sort(Digests(nodes)) else Digests(nodes)
  }

  function GroupUpdates(order: seq<string>, f: Frame, pol: Policies): (us: seq<Update>)
    ensures |us| == |order|
    ensures forall i | 0 <= i < |order| ::
      us[i] == Group(order[i], GroupDigests(Get(f.children, order[i]), f.xmlPath + "." + order[i], pol))
  {
    seq(|order|, i requires 0 <= i < |order| =>
      Group(order[i], GroupDigests(Get(f.children, order[i]), f.xmlPath + "." + order[i], pol)))
  }

  function Updates(f: Frame, pol: Policies, h: Hasher): seq<Update>
  {
    [Header(f.name, f.attributes, SignificantText(f, h))] + GroupUpdates(Sort(Keys(f.children)), f, pol)
  }

  // A long value is identified by its digest, never by its truncated display.
  function IdentityToken(node: NodeSummary): string
  {
    if |node.preview| < PREVIEW_LENGTH then node.preview else node.digest
  }

  function IdentityTokens(children: ChildMap, keys: seq<string>): seq<(string, string)>
  {
    if keys == [] then []
    else
      var values, rest := Get(children, keys[0]), IdentityTokens(children, keys[1..]);
      if |values| == 1 && values[0].scalar then [(keys[0], IdentityToken(values[0]))] + rest else rest
  }

  function FrameIdentity(f: Frame, pol: Policies): Option<string>
  {
    XmlDiff.IdentityOf(IdentityTokens(f.children, IdentityKeysAt(pol, f.xmlPath)), FirstKeyOnly(pol, f.xmlPath))
  }

  function Summarized(f: Frame, pol: Policies, h: Hasher): NodeSummary
  {
    NodeSummary(h.node(Updates(f, pol, h)), FrameIdentity(f, pol),
                if ScalarFrame(f) then f.preview else "", ScalarFrame(f))
  }

  // How a frame is turned into what its parent keeps. The stack discipline below does not
  // depend on it; `Sha` is the choice the program makes.
  datatype Closer = Closer(close: Frame -> NodeSummary, text: Frame -> string)

  function Sha(pol: Policies, h: Hasher): Closer
  {
    Closer(f => Summarized(f, pol, h), f => SignificantText(f, h))
  }

  // ---- The parser callbacks as state transitions; None is the thrown limit error ----

  datatype State = State(stack: seq<Frame>, retained: int, result: Option<DocumentSummary>)

  function Top(stack: seq<Frame>): Frame
    requires stack != []
  {
    stack[|stack| - 1]
  }

  function Rest(stack: seq<Frame>): seq<Frame>
    requires stack != []
  {
    stack[..|stack| - 1]
  }

  function OnOpen(s: State, name: string, attributes: map<string, string>): Option<State>
  {
    if |s.stack| >= MAX_DEPTH || (s.stack == [] && s.result.Some?) then None
    else
      var xmlPath := if s.stack == [] then name else Top(s.stack).xmlPath + "." + name;
      Some(s.(stack := s.stack + [Frame(name, xmlPath, attributes, [], "", false, "")]))
  }

  function Take(s: string, n: int): string
  {
    if n <= 0 then "" else if |s| <= n then s else s[..n]
  }

  function AddText(f: Frame, value: string): Frame
  {
    f.(text := f.text + value,
       nonWhitespace := f.nonWhitespace || !IsBlank(value),
       preview := if |f.preview| < PREVIEW_LENGTH then f.preview + Take(value, PREVIEW_LENGTH - |f.preview|)
                  else f.preview)
  }

  function OnCharacters(s: State, value: string): Option<State>
  {
    if s.stack == [] then Some(s)
    else Some(s.(stack := Rest(s.stack) + [AddText(Top(s.stack), value)]))
  }

  function Adopt(parent: Frame, name: string, node: NodeSummary): Frame
  {
    parent.(children := Append(parent.children, name, node))
  }

  // The parser never closes an element that is not open.
  function OnClose(s: State, k: Closer): Option<State>
    requires s.stack != []
  {
    var frame, rest := Top(s.stack), Rest(s.stack);
    var node := k.close(frame);
    if rest == [] then
      Some(s.(stack := [], result := Some(DocumentSummary(
        frame.name, node.digest, frame.attributes, k.text(frame), frame.children))))
    else
      var retained := s.retained - Total(frame.children) + 1;
      if retained > MAX_RETAINED_NODES then None
      else Some(s.(stack := Rest(rest) + [Adopt(Top(rest), frame.name, node)], retained := retained))
  }

  // ---- Mixed content: how a tree is delivered to the callbacks ----

  // Text arrives in chunks that may be cut anywhere.
  datatype Markup = Markup(name: string, attributes: map<string, string>, content: Content)
  datatype Content = Nothing | Chunk(value: string, rest: Content) | Nested(element: Markup, rest: Content)

  function Events(m: Markup): seq<Event>
  {
    [Open(m.name, m.attributes)] + ContentEvents(m.content) + [Close]
  }

  function ContentEvents(c: Content): seq<Event>
  {
    match c
    case Nothing => []
    case Chunk(value, rest) => [Characters(value)] + ContentEvents(rest)
    case Nested(element, rest) => Events(element) + ContentEvents(rest)
  }

  // The tree the markup stands for: its text is the concatenation of the chunks.
  function TreeOf(m: Markup): Element
  {
    Element(m.name, m.attributes, TextOf(m.content), ChildrenOf(m.content))
  }

  function TextOf(c: Content): string
  {
    match c
    case Nothing => ""
    case Chunk(value, rest) => value + TextOf(rest)
    case Nested(_, rest) => TextOf(rest)
  }

  function ChildrenOf(c: Content): seq<Element>
  {
    match c
    case Nothing => []
    case Chunk(_, rest) => ChildrenOf(rest)
    case Nested(element, rest) => [TreeOf(element)] + ChildrenOf(rest)
  }

  // ---- The summary of a tree, independent of how it was delivered ----

  function BuildMap(names: seq<string>, nodes: seq<NodeSummary>): ChildMap
    requires |names| == |nodes|
  {
    if names == [] then []
    else
      var last := |names| - 1;
      Append(BuildMap(names[..last], nodes[..last]), names[last], nodes[last])
  }

  function FrameOf(e: Element, path: string, k: Closer): Frame
    decreases e, 0
  {
    var nodes := seq(|e.children|, i requires 0 <= i < |e.children| =>
      Summary(e.children[i], path + "." + e.children[i].name, k));
    Frame(e.name, path, e.attributes, BuildMap(Names(e.children), nodes),
          e.text, !IsBlank(e.text), Take(e.text, PREVIEW_LENGTH))
  }

  function Summary(e: Element, path: string, k: Closer): NodeSummary
    decreases e, 1
  {
    k.close(FrameOf(e, path, k))
  }

  function DocumentOf(e: Element, k: Closer): DocumentSummary
  {
    var f := FrameOf(e, e.name, k);
    DocumentSummary(e.name, Summary(e, e.name, k).digest, e.attributes, k.text(f), f.children)
  }

  // The limits, counted on the tree: `open` elements enclose it and `held` closed ones
  // are held by them when it starts.
  predicate Fits(e: Element, open: nat, held: int)
    decreases e, 1
  {
    open < MAX_DEPTH && FitAll(e.children, open + 1, held)
  }

  predicate FitAll(es: seq<Element>, open: nat, held: int)
    decreases es, 0
  {
    es != [] ==>
      Fits(es[0], open, held) && held + 1 <= MAX_RETAINED_NODES && FitAll(es[1..], open, held + 1)
  }

  // ---- Running the callbacks ----

  function Step(s: State, event: Event, k: Closer): Option<State>
  {
    match event
    case Open(name, attributes) => OnOpen(s, name, attributes)
    case Characters(value) => OnCharacters(s, value)
    case Close => if s.stack == [] then None else OnClose(s, k)
  }

  function Run(s: State, events: seq<Event>, k: Closer): Option<State>
    decreases |events|
  {
    if events == [] then Some(s)
    else
      var next := Step(s, events[0], k);
      if next.None? then None else Run(next.value, events[1..], k)
  }

  function Then(s: Option<State>, events: seq<Event>, k: Closer): Option<State>
  {
    if s.None? then None else Run(s.value, events, k)
  }

  lemma {:induction false} RunConcat(s: State, a: seq<Event>, b: seq<Event>, k: Closer)
    ensures Run(s, a + b, k) == Then(Run(s, a, k), b, k)
    decreases |a|
  {
    if a == [] {
      assert a + b == b;
    } else {
      assert (a + b)[1..] == a[1..] + b && (a + b)[0] == a[0];
      var next := Step(s, a[0], k);
      if next.Some? { RunConcat(next.value, a[1..], b, k); }
    }
  }

  // ---- A frame while its content goes by ----

  function AppendAll(m: ChildMap, names: seq<string>, nodes: seq<NodeSummary>): ChildMap
    requires |names| == |nodes|
    decreases |names|
  {
    if names == [] then m else AppendAll(Append(m, names[0], nodes[0]), names[1..], nodes[1..])
  }

  function Summaries(es: seq<Element>, path: string, k: Closer): (nodes: seq<NodeSummary>)
    ensures |nodes| == |es|
    ensures forall i | 0 <= i < |es| :: nodes[i] == Summary(es[i], path + "." + es[i].name, k)
  {
    seq(|es|, i requires 0 <= i < |es| => Summary(es[i], path + "." + es[i].name, k))
  }

  function Absorb(f: Frame, text: string, names: seq<string>, nodes: seq<NodeSummary>): Frame
    requires |names| == |nodes|
  {
    f.(text := f.text + text,
       nonWhitespace := f.nonWhitespace || !IsBlank(text),
       preview := Take(f.text + text, PREVIEW_LENGTH),
       children := AppendAll(f.children, names, nodes))
  }

  function AfterContent(f: Frame, c: Content, k: Closer): Frame
  {
    Absorb(f, TextOf(c), Names(ChildrenOf(c)), Summaries(ChildrenOf(c), f.xmlPath, k))
  }

  predicate PreviewOfText(f: Frame)
  {
    f.preview == Take(f.text, PREVIEW_LENGTH)
  }

  lemma {:induction false} TotalOfAppend(m: ChildMap, name: string, node: NodeSummary)
    ensures Total(Append(m, name, node)) == Total(m) + 1
  {
    if m != [] && m[0].name != name {
      TotalOfAppend(m[1..], name, node);
      assert Append(m, name, node)[1..] == Append(m[1..], name, node);
    } else if m != [] {
      assert Append(m, name, node)[1..] == m[1..];
    }
  }

  lemma {:induction false} TotalOfAppendAll(m: ChildMap, names: seq<string>, nodes: seq<NodeSummary>)
    requires |names| == |nodes|
    ensures Total(AppendAll(m, names, nodes)) == Total(m) + |names|
    decreases |names|
  {
    if names != [] {
      TotalOfAppend(m, names[0], nodes[0]);
      TotalOfAppendAll(Append(m, names[0], nodes[0]), names[1..], nodes[1..]);
    }
  }

  lemma {:induction false} AppendAllSnoc(m: ChildMap, names: seq<string>, nodes: seq<NodeSummary>)
    requires |names| == |nodes| && names != []
    ensures AppendAll(m, names, nodes)
      == Append(AppendAll(m, names[..|names| - 1], nodes[..|names| - 1]), names[|names| - 1], nodes[|names| - 1])
    decreases |names|
  {
    var last := |names| - 1;
    if last > 0 {
      AppendAllSnoc(Append(m, names[0], nodes[0]), names[1..], nodes[1..]);
      assert names[1..][..last - 1] == names[..last][1..];
      assert nodes[1..][..last - 1] == nodes[..last][1..];
    }
  }

  lemma {:induction false} AppendAllBuildsMap(names: seq<string>, nodes: seq<NodeSummary>)
    requires |names| == |nodes|
    ensures AppendAll([], names, nodes) == BuildMap(names, nodes)
  {
    if names != [] {
      AppendAllSnoc([], names, nodes);
      AppendAllBuildsMap(names[..|names| - 1], nodes[..|names| - 1]);
    }
  }

  lemma FrameOfChildren(e: Element, path: string, k: Closer)
    ensures FrameOf(e, path, k).children == BuildMap(Names(e.children), Summaries(e.children, path, k))
  {
    assert seq(|e.children|, i requires 0 <= i < |e.children| =>
      Summary(e.children[i], path + "." + e.children[i].name, k)) == Summaries(e.children, path, k);
  }

  // A frame entered for an element has become exactly the element's frame when it closes.
  lemma ContentCompletesFrame(m: Markup, path: string, k: Closer)
    ensures AfterContent(Frame(m.name, path, m.attributes, [], "", false, ""), m.content, k)
      == FrameOf(TreeOf(m), path, k)
  {
    var e := TreeOf(m);
    AppendAllBuildsMap(Names(e.children), Summaries(e.children, path, k));
    FrameOfChildren(e, path, k);
    assert "" + TextOf(m.content) == TextOf(m.content);
  }

  // ---- The stack machine computes the summary of the tree ----

  // A state in which content may arrive: the innermost open frame keeps its preview.
  predicate Inside(s: State)
  {
    s.stack != [] && PreviewOfText(Top(s.stack))
  }

  function WithTop(s: State, f: Frame, retained: int): State
    requires s.stack != []
  {
    s.(stack := Rest(s.stack) + [f], retained := retained)
  }

  function AfterElement(s: State, e: Element, k: Closer): State
    requires s.stack != []
  {
    var f := Top(s.stack);
    WithTop(s, Adopt(f, e.name, Summary(e, f.xmlPath + "." + e.name, k)), s.retained + 1)
  }

  lemma BlankConcat(a: string, b: string)
    ensures IsBlank(a + b) <==> IsBlank(a) && IsBlank(b)
  {
    if IsBlank(a + b) {
      assert forall i | 0 <= i < |a| :: a[i] == (a + b)[i];
      assert forall i | 0 <= i < |b| :: b[i] == (a + b)[|a| + i];
    }
  }

  lemma TextKeepsPreview(f: Frame, value: string)
    requires PreviewOfText(f)
    ensures PreviewOfText(AddText(f, value))
  {
    if |f.text| < PREVIEW_LENGTH {
      assert Take(f.text, PREVIEW_LENGTH) == f.text;
      assert Take(f.text + value, PREVIEW_LENGTH) == f.text + Take(value, PREVIEW_LENGTH - |f.text|);
    } else {
      assert Take(f.text + value, PREVIEW_LENGTH) == Take(f.text, PREVIEW_LENGTH);
    }
  }

  lemma ChunkThenContent(f: Frame, value: string, rest: Content, k: Closer)
    ensures AfterContent(AddText(f, value), rest, k) == AfterContent(f, Chunk(value, rest), k)
  {
    BlankConcat(value, TextOf(rest));
    assert (f.text + value) + TextOf(rest) == f.text + (value + TextOf(rest));
  }

  lemma ElementThenContent(f: Frame, m: Markup, rest: Content, k: Closer)
    ensures AfterContent(Adopt(f, m.name, Summary(TreeOf(m), f.xmlPath + "." + m.name, k)), rest, k)
      == AfterContent(f, Nested(m, rest), k)
  {
    var path := f.xmlPath;
    var e, more := TreeOf(m), ChildrenOf(rest);
    var node := Summary(e, path + "." + m.name, k);
    assert Names([e] + more) == [m.name] + Names(more);
    assert Summaries([e] + more, path, k) == [node] + Summaries(more, path, k);
    AdoptThenAbsorb(f, m.name, node, TextOf(rest), Names(more), Summaries(more, path, k));
  }

  lemma AdoptThenAbsorb(f: Frame, name: string, node: NodeSummary, text: string, names: seq<string>, nodes: seq<NodeSummary>)
    requires |names| == |nodes|
    ensures Absorb(Adopt(f, name, node), text, names, nodes) == Absorb(f, text, [name] + names, [node] + nodes)
  {
    assert ([name] + names)[1..] == names && ([node] + nodes)[1..] == nodes;
  }

  lemma NothingLeft(f: Frame, k: Closer)
    requires PreviewOfText(f)
    ensures AfterContent(f, Nothing, k) == f
  {
    assert f.text + "" == f.text;
  }

  lemma FitAllFirst(e: Element, es: seq<Element>, open: nat, held: int)
    ensures FitAll([e] + es, open, held)
      <==> (Fits(e, open, held) && held + 1 <= MAX_RETAINED_NODES && FitAll(es, open, held + 1))
  {
    assert ([e] + es)[0] == e && ([e] + es)[1..] == es;
  }

  lemma RunCons(s: State, event: Event, rest: seq<Event>, k: Closer)
    ensures Run(s, [event] + rest, k) == Then(Step(s, event, k), rest, k)
    ensures Run(s, [event], k) == Step(s, event, k)
  {
    assert ([event] + rest)[1..] == rest;
    var next := Step(s, event, k);
    if next.Some? {
      assert Run(next.value, [], k) == next;
      assert [event][1..] == [];
    }
  }

  function ContentState(s: State, c: Content, k: Closer): State
    requires s.stack != []
  {
    WithTop(s, AfterContent(Top(s.stack), c, k), s.retained + |ChildrenOf(c)|)
  }

  lemma ChunkStep(s: State, value: string, rest: Content, k: Closer)
    requires Inside(s)
    ensures var next := WithTop(s, AddText(Top(s.stack), value), s.retained);
      && Step(s, Characters(value), k) == Some(next)
      && Inside(next) && |next.stack| == |s.stack| && next.retained == s.retained
      && ContentState(next, rest, k) == ContentState(s, Chunk(value, rest), k)
  {
    var next := WithTop(s, AddText(Top(s.stack), value), s.retained);
    TextKeepsPreview(Top(s.stack), value);
    ChunkThenContent(Top(s.stack), value, rest, k);
    assert Rest(next.stack) == Rest(s.stack);
  }

  lemma NestedStep(s: State, m: Markup, rest: Content, k: Closer)
    requires Inside(s)
    ensures var next := AfterElement(s, TreeOf(m), k);
      && Inside(next) && |next.stack| == |s.stack| && next.retained == s.retained + 1
      && ContentState(next, rest, k) == ContentState(s, Nested(m, rest), k)
  {
    var next := AfterElement(s, TreeOf(m), k);
    ElementThenContent(Top(s.stack), m, rest, k);
    assert Rest(next.stack) == Rest(s.stack);
    assert |ChildrenOf(Nested(m, rest))| == 1 + |ChildrenOf(rest)|;
  }

  lemma NothingStep(s: State, k: Closer)
    requires Inside(s)
    ensures ContentState(s, Nothing, k) == s
  {
    NothingLeft(Top(s.stack), k);
    assert Rest(s.stack) + [Top(s.stack)] == s.stack;
  }

  ghost predicate ContentRuns(s: State, c: Content, k: Closer)
    requires s.stack != []
  {
    Run(s, ContentEvents(c), k)
      == if FitAll(ChildrenOf(c), |s.stack|, s.retained) then Some(ContentState(s, c, k)) else None
  }

  ghost predicate ElementRuns(s: State, m: Markup, k: Closer)
    requires s.stack != []
  {
    Run(s, Events(m), k)
      == if Fits(TreeOf(m), |s.stack|, s.retained) && s.retained + 1 <= MAX_RETAINED_NODES
         then Some(AfterElement(s, TreeOf(m), k)) else None
  }

  lemma {:induction false} RunContent(s: State, c: Content, k: Closer)
    requires Inside(s)
    ensures ContentRuns(s, c, k)
    decreases c, 0
  {
    match c
    case Nothing =>
      NothingStep(s, k);
    case Chunk(value, rest) =>
      ChunkStep(s, value, rest, k);
      RunCons(s, Characters(value), ContentEvents(rest), k);
      RunContent(WithTop(s, AddText(Top(s.stack), value), s.retained), rest, k);
    case Nested(m, rest) =>
      RunNested(s, m, k);
      NestedStep(s, m, rest, k);
      var next := AfterElement(s, TreeOf(m), k);
      RunContent(next, rest, k);
      FitAllFirst(TreeOf(m), ChildrenOf(rest), |s.stack|, s.retained);
      InTurn(s, Events(m), ContentEvents(rest),
             Fits(TreeOf(m), |s.stack|, s.retained) && s.retained + 1 <= MAX_RETAINED_NODES,
             FitAll(ChildrenOf(rest), |s.stack|, s.retained + 1), next, ContentState(next, rest, k), k);
  }

  lemma InTurn(s: State, a: seq<Event>, b: seq<Event>, first: bool, more: bool, next: State, end: State,
               k: Closer)
    requires Run(s, a, k) == if first then Some(next) else None
    requires first ==> Run(next, b, k) == if more then Some(end) else None
    ensures Run(s, a + b, k) == if first && more then Some(end) else None
  {
    RunConcat(s, a, b, k);
  }

  function FullState(s: State, e: Element, path: string, k: Closer): State
  {
    s.(stack := s.stack + [FrameOf(e, path, k)], retained := s.retained + |e.children|)
  }

  lemma {:induction false} RunNested(s: State, m: Markup, k: Closer)
    requires Inside(s)
    ensures ElementRuns(s, m, k)
    decreases m, 1
  {
    var path := Top(s.stack).xmlPath + "." + m.name;
    var e := TreeOf(m);
    RunUpToClose(s, m, path, k);
    FrameTotal(e, path, k);
    RunClose(s, e, FrameOf(e, path, k), Summary(e, path, k), FullState(s, e, path, k), k);
  }

  lemma RunClose(s: State, e: Element, f: Frame, node: NodeSummary, full: State, k: Closer)
    requires s.stack != []
    requires full == s.(stack := s.stack + [f], retained := s.retained + |e.children|)
    requires f.name == e.name && node == k.close(f) && Total(f.children) == |e.children|
    ensures Run(full, [Close], k)
      == if s.retained + 1 <= MAX_RETAINED_NODES
         then Some(WithTop(s, Adopt(Top(s.stack), e.name, node), s.retained + 1)) else None
  {
    RunCons(full, Close, [], k);
    assert Rest(full.stack) == s.stack && Top(full.stack) == f;
  }

  // Everything of an element up to its closing tag.
  lemma {:induction false} RunUpToClose(s: State, m: Markup, path: string, k: Closer)
    requires path == if s.stack == [] then m.name else Top(s.stack).xmlPath + "." + m.name
    requires s.stack == [] ==> s.result.None?
    ensures Run(s, Events(m), k)
      == if Fits(TreeOf(m), |s.stack|, s.retained)
         then Run(FullState(s, TreeOf(m), path, k), [Close], k) else None
    decreases m, 0
  {
    var first := Event.Open(m.name, m.attributes);
    var tail := ContentEvents(m.content) + [Close];
    assert Events(m) == [first] + tail;
    RunCons(s, first, tail, k);
    if |s.stack| < MAX_DEPTH {
      var entered := Entered(s, m, path);
      RunContent(entered, m.content, k);
      ContentThenClose(s, m, path, k);
    }
  }

  function Entered(s: State, m: Markup, path: string): State
  {
    s.(stack := s.stack + [Frame(m.name, path, m.attributes, [], "", false, "")])
  }

  lemma ContentThenClose(s: State, m: Markup, path: string, k: Closer)
    requires |s.stack| < MAX_DEPTH && ContentRuns(Entered(s, m, path), m.content, k)
    ensures Run(Entered(s, m, path), ContentEvents(m.content) + [Close], k)
      == if Fits(TreeOf(m), |s.stack|, s.retained)
         then Run(FullState(s, TreeOf(m), path, k), [Close], k) else None
  {
    var entered := Entered(s, m, path);
    RunConcat(entered, ContentEvents(m.content), [Close], k);
    EnteredContent(s, m, path, k);
    assert TreeOf(m).children == ChildrenOf(m.content);
  }

  lemma EnteredContent(s: State, m: Markup, path: string, k: Closer)
    ensures ContentState(Entered(s, m, path), m.content, k) == FullState(s, TreeOf(m), path, k)
  {
    var entered := Entered(s, m, path);
    ContentCompletesFrame(m, path, k);
    assert Rest(entered.stack) == s.stack;
  }

  lemma FrameTotal(e: Element, path: string, k: Closer)
    ensures Total(FrameOf(e, path, k).children) == |e.children|
  {
    FrameOfChildren(e, path, k);
    AppendAllBuildsMap(Names(e.children), Summaries(e.children, path, k));
    TotalOfAppendAll([], Names(e.children), Summaries(e.children, path, k));
  }

  const START: State := State([], 0, None)

  lemma RunRootClose(f: Frame, node: NodeSummary, retained: int, k: Closer)
    requires node == k.close(f)
    ensures Run(START.(stack := START.stack + [f], retained := retained), [Close], k)
      == Some(State([], retained, Some(DocumentSummary(
           f.name, node.digest, f.attributes, k.text(f), f.children))))
  {
    var full := START.(stack := START.stack + [f], retained := retained);
    RunCons(full, Close, [], k);
    assert full.stack == [f] && Rest(full.stack) == [];
  }

  // However the text of a document is cut into chunks, the callbacks end with the summary
  // of its tree, and they fail exactly when the tree exceeds the limits.
  lemma StackMachineSummarizes(m: Markup, k: Closer)
    ensures Run(START, Events(m), k)
      == if Fits(TreeOf(m), 0, 0)
         then Some(State([], |TreeOf(m).children|, Some(DocumentOf(TreeOf(m), k))))
         else None
  {
    RunUpToClose(START, m, m.name, k);
    var e := TreeOf(m);
    RunRootClose(FrameOf(e, e.name, k), Summary(e, e.name, k), |e.children|, k);
  }
}
