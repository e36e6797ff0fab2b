// The first pass of src/metadata/package-child-filter.ts: parser callbacks find the ranges of
// the embedded members that are to be left out of a comparison copy.
module PackageChildFilter {
  import opened Options
  import opened StringKit
  import opened RangeDeletion
  import TextNormalization

  const MAX_DEPTH: nat := 128
  const MAX_IDENTITY: nat := 240

  datatype Rule = Rule(name: string, element: string, parent: string, identity: string, ignoreParentName: bool)

  // What is selected: the rules of one parent type, its name, and the keys to leave out.
  datatype Selection = Selection(parentName: string, rules: seq<Rule>, excluded: set<string>)

  function LocalName(name: string): string
  {
    var i := IndexOf(name, ':');
    if i < |name| then name[i + 1..] else name
  }

  function FindRule(rules: seq<Rule>, element: string): Option<Rule>
  {
    if rules == [] then None
    else if rules[0].element == element then Some(rules[0])
    else FindRule(rules[1..], element)
  }

  predicate IdentityChar(c: char)
  {
    'A' <= c <= 'Z' || 'a' <= c <= 'z' || '0' <= c <= '9' || c in {'_', '$', '.', '-'}
  }

  predicate ValidIdentity(s: string)
  {
    s != "" && forall i | 0 <= i < |s| :: IdentityChar(s[i])
  }

  function KeyOf(sel: Selection, rule: Rule, identity: string): string
  {
    rule.name + ":" + (if rule.ignoreParentName then identity else sel.parentName + "." + identity)
  }

  // ---- Parser events and the builder's state; None is a thrown error ----

  // An opening tag lies between `tagStart` and `position`; a closing one ends at `position`.
  datatype Event =
    | OpenTag(name: string, tagStart: nat, position: nat)
    | Words(value: string)
    | CData(value: string)
    | Note
    | CloseTag(position: nat)

  datatype State = State(
    depth: nat, rootSeen: bool, rule: Option<Rule>, start: nat, separatorStart: nat, whitespaceSeparator: bool,
    identity: string, identityCount: nat, reading: bool, ranges: seq<Range>)

  const START: State := State(0, false, None, 0, 0, true, "", 0, false, [])

  function OnOpenTag(s: State, sel: Selection, tag: string, tagStart: nat, position: nat): Option<State>
    requires sel.rules != []
  {
    var depth, name := s.depth + 1, LocalName(tag);
    if depth > MAX_DEPTH then None
    else if depth == 1 && (s.rootSeen || name != sel.rules[0].parent) then None
    else
      var s1 := if depth == 1 then s.(rootSeen := true, separatorStart := position) else s;
      var s2 := if depth == 2 then s1.(
                    rule := FindRule(sel.rules, name),
                    start := if s1.whitespaceSeparator then s1.separatorStart else tagStart,
                    identity := "", identityCount := 0)
                else s1;
      if s2.rule.Some? && depth == 3 && name == s2.rule.value.identity
      then Some(s2.(depth := depth, reading := true, identityCount := s2.identityCount + 1))
      else if s2.reading then None
      else Some(s2.(depth := depth))
  }

  function OnText(s: State, value: string): Option<State>
  {
    var s1 := if s.depth == 1 && !IsBlank(value) then s.(whitespaceSeparator := false) else s;
    if !s1.reading then Some(s1)
    else if |s1.identity + value| > MAX_IDENTITY then None
    else Some(s1.(identity := s1.identity + value))
  }

  function OnNote(s: State): State
  {
    if s.depth == 1 then s.(whitespaceSeparator := false) else s
  }

  // The parser never closes an element that is not open.
  function OnCloseTag(s: State, sel: Selection, position: nat): Option<State>
    requires s.depth > 0
  {
    var s1 := if s.depth == 3 then s.(reading := false) else s;
    if s.depth != 2 then Some(s1.(depth := s.depth - 1))
    else if s1.rule.Some? && (s1.identityCount != 1 || !ValidIdentity(s1.identity)) then None
    else
      var key := if s1.rule.Some? then KeyOf(sel, s1.rule.value, s1.identity) else "";
      Some(s1.(
        ranges := if s1.rule.Some? && key in sel.excluded then s1.ranges + [Range(s1.start, position, key)] else s1.ranges,
        rule := None, separatorStart := position, whitespaceSeparator := true, depth := s.depth - 1))
  }

  function Step(s: State, sel: Selection, e: Event): Option<State>
    requires sel.rules != []
  {
    match e
    case OpenTag(name, tagStart, position) => OnOpenTag(s, sel, name, tagStart, position)
    case Words(value) => OnText(s, value)
    case CData(value) => OnText(OnNote(s), value)
    case Note => Some(OnNote(s))
    case CloseTag(position) => if s.depth == 0 then None else OnCloseTag(s, sel, position)
  }

  function Run(s: State, sel: Selection, events: seq<Event>): Option<State>
    requires sel.rules != []
    decreases |events|
  {
    if events == [] then Some(s)
    else
      var next := Step(s, sel, events[0]);
      if next.None? then None else Run(next.value, sel, events[1..])
  }

  function RunOn(s: Option<State>, sel: Selection, events: seq<Event>): Option<State>
    requires sel.rules != []
  {
    if s.None? then None else Run(s.value, sel, events)
  }

  lemma {:induction false} RunConcat(s: State, sel: Selection, a: seq<Event>, b: seq<Event>)
    requires sel.rules != []
    ensures Run(s, sel, a + b) == RunOn(Run(s, sel, a), sel, b)
    decreases |a|
  {
    if a == [] {
      assert a + b == b;
    } else {
      assert (a + b)[1..] == a[1..] + b;
      var next := Step(s, sel, a[0]);
      if next.Some? { RunConcat(next.value, sel, a[1..], b); }
    }
  }

  lemma RunFirst(s: State, sel: Selection, e: Event, rest: seq<Event>)
    requires sel.rules != []
    ensures Run(s, sel, [e] + rest) == RunOn(Step(s, sel, e), sel, rest)
  {
    assert ([e] + rest)[1..] == rest;
  }

  // ---- Documents ----

  datatype Node =
    | Element(name: string, tagStart: nat, openEnd: nat, children: Nodes, closeEnd: nat)
    | Text(value: string)
    | CDataText(value: string)
    | Remark
  datatype Nodes = Empty | More(head: Node, tail: Nodes)

  function Events(n: Node): seq<Event>
  {
    match n
    case Element(name, tagStart, openEnd, children, closeEnd) =>
      [OpenTag(name, tagStart, openEnd)] + (AllEvents(children) + [CloseTag(closeEnd)])
    case Text(value) => [Words(value)]
    case CDataText(value) => [CData(value)]
    case Remark => [Note]
  }

  function AllEvents(ns: Nodes): seq<Event>
  {
    match ns
    case Empty => []
    case More(head, tail) => Events(head) + AllEvents(tail)
  }

  // Whether everything below stays within the depth limit when `depth` elements are open.
  predicate Shallow(ns: Nodes, depth: nat)
  {
    match ns
    case Empty => true
    case More(Element(_, _, _, children, _), tail) => depth < MAX_DEPTH && Shallow(children, depth + 1) && Shallow(tail, depth)
    case More(_, tail) => Shallow(tail, depth)
  }

  // ---- What the callbacks are to find ----

  // The text of an identity element, appended to `sofar`; it may hold no element and must
  // stay short.
  function IdentityText(ns: Nodes, sofar: string): Option<string>
  {
    match ns
    case Empty => Some(sofar)
    case More(Element(_, _, _, _, _), _) => None
    case More(Text(v), tail) => if |sofar + v| > MAX_IDENTITY then None else IdentityText(tail, sofar + v)
    case More(CDataText(v), tail) => if |sofar + v| > MAX_IDENTITY then None else IdentityText(tail, sofar + v)
    case More(Remark, tail) => IdentityText(tail, sofar)
  }

  // The identity collected from the children of a member, and how many elements gave it.
  datatype Identity = Identity(text: string, count: nat)

  function Collected(ns: Nodes, rule: Rule, sofar: Identity): Option<Identity>
  {
    match ns
    case Empty => Some(sofar)
    case More(Element(name, _, _, children, _), tail) =>
      if LocalName(name) == rule.identity then
        var text := IdentityText(children, sofar.text);
        if text.None? then None else Collected(tail, rule, Identity(text.value, sofar.count + 1))
      else if Shallow(children, 3) then Collected(tail, rule, sofar) else None
    case More(_, tail) => Collected(tail, rule, sofar)
  }

  // The key of a member directly below the root: None if it is malformed, Some(None) if no
  // rule is about it.
  function MemberKey(e: Node, sel: Selection): Option<Option<string>>
    requires e.Element?
  {
    var rule := FindRule(sel.rules, LocalName(e.name));
    if rule.None? then if Shallow(e.children, 2) then Some(None) else None
    else
      var id := Collected(e.children, rule.value, Identity("", 0));
      if id.None? || id.value.count != 1 || !ValidIdentity(id.value.text) then None
      else Some(Some(KeyOf(sel, rule.value, id.value.text)))
  }

  // ---- How a member is called ----

  // A name without its prefix, if it has one.
  lemma LocalNameExactly(prefix: string, rest: string)
    ensures ':' !in prefix ==> LocalName(prefix + ":" + rest) == rest
    ensures ':' !in rest ==> LocalName(rest) == rest
  {
    if ':' !in prefix {
      var name := prefix + ":" + rest;
      assert name[|prefix|] == ':' && name[|prefix| + 1..] == rest;
      assert forall j | 0 <= j < |prefix| :: name[j] == prefix[j];
      IndexOfUnique(name, ':', |prefix|);
    }
  }

  // The rule at `i` is the first for elements of this local name.
  predicate FirstRule(sel: Selection, local: string, i: nat)
  {
    i < |sel.rules| && sel.rules[i].element == local && forall k | 0 <= k < i :: sel.rules[k].element != local
  }

  lemma {:induction false} FoundIsFirst(rules: seq<Rule>, element: string, i: nat)
    requires i < |rules| && rules[i].element == element && forall k | 0 <= k < i :: rules[k].element != element
    ensures FindRule(rules, element) == Some(rules[i])
  {
    if i > 0 {
      assert forall k | 0 <= k < i - 1 :: rules[1..][k] == rules[k + 1];
      FoundIsFirst(rules[1..], element, i - 1);
    }
  }

  lemma {:induction false} NoneIsFound(rules: seq<Rule>, element: string)
    requires forall k | 0 <= k < |rules| :: rules[k].element != element
    ensures FindRule(rules, element).None?
  {
    if rules != [] {
      assert forall k | 0 <= k < |rules[1..]| :: rules[1..][k] == rules[k + 1];
      NoneIsFound(rules[1..], element);
    }
  }

  // A member is called by the first rule for its element: by that rule's name and its own
  // identity, which exactly one child must give, below the name of its parent unless the rule
  // ignores that; without a rule it has no key.
  lemma MemberKeyExactly(e: Node, sel: Selection)
    requires e.Element?
    ensures (forall k | 0 <= k < |sel.rules| :: sel.rules[k].element != LocalName(e.name)) ==>
      MemberKey(e, sel) == if Shallow(e.children, 2) then Some(None) else None
    ensures forall i: nat | FirstRule(sel, LocalName(e.name), i) ::
      var (rule, id) := (sel.rules[i], Collected(e.children, sel.rules[i], Identity("", 0)));
      && (MemberKey(e, sel).Some? <==> id.Some? && id.value.count == 1 && ValidIdentity(id.value.text))
      && (MemberKey(e, sel).Some? ==>
            MemberKey(e, sel).value == Some(rule.name + ":"
              + (if rule.ignoreParentName then id.value.text else sel.parentName + "." + id.value.text)))
  {
    if forall k | 0 <= k < |sel.rules| :: sel.rules[k].element != LocalName(e.name) { NoneIsFound(sel.rules, LocalName(e.name)); }
    forall i: nat | FirstRule(sel, LocalName(e.name), i) ensures FindRule(sel.rules, LocalName(e.name)) == Some(sel.rules[i]) {
      FoundIsFirst(sel.rules, LocalName(e.name), i);
    }
  }

  predicate Selected(key: Option<string>, sel: Selection)
  {
    key.Some? && key.value in sel.excluded
  }

  // The ranges of the selected members among the root's children. `separator` is where the
  // last tag ended; `blank` says that only white space followed it.
  function MemberRanges(ns: Nodes, sel: Selection, separator: nat, blank: bool): Option<seq<Range>>
  {
    match ns
    case Empty => Some([])
    case More(Text(v), tail) => MemberRanges(tail, sel, separator, blank && IsBlank(v))
    case More(CDataText(_), tail) => MemberRanges(tail, sel, separator, false)
    case More(Remark, tail) => MemberRanges(tail, sel, separator, false)
    case More(e, tail) =>
      var key := MemberKey(e, sel);
      var rest := MemberRanges(tail, sel, e.closeEnd, true);
      if key.None? || rest.None? then None
      else if Selected(key.value, sel)
      then Some([Range(if blank then separator else e.tagStart, e.closeEnd, key.value.value)] + rest.value)
      else rest
  }

  function RangesOf(root: Node, sel: Selection): Option<seq<Range>>
    requires root.Element? && sel.rules != []
  {
    if LocalName(root.name) != sel.rules[0].parent then None
    else MemberRanges(root.children, sel, root.openEnd, true)
  }

  // ---- The callbacks find it ----

  // A state in which nothing below can change anything: no identity is being read, and no
  // rule looks at what is opened next.
  predicate Indifferent(s: State)
  {
    !s.reading && (s.depth >= 3 || (s.depth == 2 && s.rule.None?))
  }

  lemma {:induction false} SkipNodes(s: State, sel: Selection, ns: Nodes)
    requires sel.rules != [] && Indifferent(s)
    ensures Run(s, sel, AllEvents(ns)) == if Shallow(ns, s.depth) then Some(s) else None
    decreases ns
  {
    match ns
    case Empty =>
    case More(Element(name, tagStart, openEnd, children, closeEnd), tail) =>
      var inner := s.(depth := s.depth + 1);
      ElementRun(s, sel, ns.head, AllEvents(tail));
      if s.depth < MAX_DEPTH {
        SkipNodes(inner, sel, children);
        RunConcat(inner, sel, AllEvents(children), [CloseTag(closeEnd)] + AllEvents(tail));
        RunFirst(inner, sel, CloseTag(closeEnd), AllEvents(tail));
        SkipNodes(s, sel, tail);
      }
    case More(head, tail) =>
      RunFirst(s, sel, Events(head)[0], AllEvents(tail));
      SkipNodes(s, sel, tail);
  }

  // An element's events, one after the other.
  lemma ElementRun(s: State, sel: Selection, e: Node, rest: seq<Event>)
    requires sel.rules != [] && e.Element?
    ensures Run(s, sel, Events(e) + rest)
      == RunOn(Step(s, sel, OpenTag(e.name, e.tagStart, e.openEnd)), sel, AllEvents(e.children) + ([CloseTag(e.closeEnd)] + rest))
  {
    var first := OpenTag(e.name, e.tagStart, e.openEnd);
    assert Events(e) + rest == [first] + (AllEvents(e.children) + ([CloseTag(e.closeEnd)] + rest));
    RunFirst(s, sel, first, AllEvents(e.children) + ([CloseTag(e.closeEnd)] + rest));
  }

  lemma {:induction false} IdentityRun(s: State, sel: Selection, ns: Nodes)
    requires sel.rules != [] && s.reading && s.depth == 3
    ensures Run(s, sel, AllEvents(ns))
      == (var t := IdentityText(ns, s.identity); if t.Some? then Some(s.(identity := t.value)) else None)
    decreases ns
  {
    match ns
    case Empty =>
    case More(Element(name, tagStart, openEnd, children, closeEnd), tail) =>
      ElementRun(s, sel, ns.head, AllEvents(tail));
    case More(Text(v), tail) =>
      RunFirst(s, sel, Words(v), AllEvents(tail));
      if |s.identity + v| <= MAX_IDENTITY { IdentityRun(s.(identity := s.identity + v), sel, tail); }
    case More(CDataText(v), tail) =>
      RunFirst(s, sel, CData(v), AllEvents(tail));
      if |s.identity + v| <= MAX_IDENTITY { IdentityRun(s.(identity := s.identity + v), sel, tail); }
    case More(Remark, tail) =>
      RunFirst(s, sel, Note, AllEvents(tail));
      IdentityRun(s, sel, tail);
  }

  predicate InMember(s: State, rule: Rule)
  {
    s.depth == 2 && s.rule == Some(rule) && !s.reading
  }

  function WithIdentity(s: State, id: Option<Identity>): Option<State>
  {
    if id.None? then None else Some(s.(identity := id.value.text, identityCount := id.value.count))
  }

  // A child element of a member, whole.
  lemma ChildRun(s: State, sel: Selection, rule: Rule, e: Node, tail: Nodes)
    requires sel.rules != [] && InMember(s, rule) && e.Element?
    ensures Run(s, sel, AllEvents(More(e, tail)))
      == if LocalName(e.name) == rule.identity
         then (var text := IdentityText(e.children, s.identity);
               if text.None? then None
               else Run(s.(identity := text.value, identityCount := s.identityCount + 1), sel, AllEvents(tail)))
         else if Shallow(e.children, 3) then Run(s, sel, AllEvents(tail)) else None
  {
    ElementRun(s, sel, e, AllEvents(tail));
    if LocalName(e.name) == rule.identity {
      IdentityChild(s, sel, rule, e.children, e.closeEnd, AllEvents(tail));
    } else {
      OtherChild(s, sel, rule, e.children, e.closeEnd, AllEvents(tail));
    }
  }

  // Text and comments between the children of a member.
  lemma PassiveRun(s: State, sel: Selection, rule: Rule, head: Node, tail: Nodes)
    requires sel.rules != [] && InMember(s, rule) && !head.Element?
    ensures Run(s, sel, AllEvents(More(head, tail))) == Run(s, sel, AllEvents(tail))
  {
    RunFirst(s, sel, Events(head)[0], AllEvents(tail));
  }

  lemma {:induction false} CollectedRun(s: State, sel: Selection, rule: Rule, ns: Nodes)
    requires sel.rules != [] && InMember(s, rule)
    ensures Run(s, sel, AllEvents(ns)) == WithIdentity(s, Collected(ns, rule, Identity(s.identity, s.identityCount)))
    decreases ns
  {
    match ns
    case Empty =>
    case More(Element(name, tagStart, openEnd, children, closeEnd), tail) =>
      ChildRun(s, sel, rule, ns.head, tail);
      if LocalName(name) == rule.identity {
        var text := IdentityText(children, s.identity);
        if text.Some? { CollectedRun(s.(identity := text.value, identityCount := s.identityCount + 1), sel, rule, tail); }
      } else if Shallow(children, 3) {
        CollectedRun(s, sel, rule, tail);
      }
    case More(head, tail) =>
      PassiveRun(s, sel, rule, head, tail);
      CollectedRun(s, sel, rule, tail);
  }

  lemma IdentityChild(s: State, sel: Selection, rule: Rule, children: Nodes, closeEnd: nat, rest: seq<Event>)
    requires sel.rules != [] && InMember(s, rule)
    ensures var entered := s.(depth := 3, reading := true, identityCount := s.identityCount + 1);
      var text := IdentityText(children, s.identity);
      Run(entered, sel, AllEvents(children) + ([CloseTag(closeEnd)] + rest))
        == if text.None? then None
           else Run(s.(identity := text.value, identityCount := s.identityCount + 1), sel, rest)
  {
    var inner := s.(depth := 3, reading := true, identityCount := s.identityCount + 1);
    IdentityRun(inner, sel, children);
    RunConcat(inner, sel, AllEvents(children), [CloseTag(closeEnd)] + rest);
    var text := IdentityText(children, s.identity);
    if text.Some? { RunFirst(inner.(identity := text.value), sel, CloseTag(closeEnd), rest); }
  }

  lemma OtherChild(s: State, sel: Selection, rule: Rule, children: Nodes, closeEnd: nat, rest: seq<Event>)
    requires sel.rules != [] && InMember(s, rule)
    ensures Run(s.(depth := 3), sel, AllEvents(children) + ([CloseTag(closeEnd)] + rest))
      == if Shallow(children, 3) then Run(s, sel, rest) else None
  {
    var inner := s.(depth := 3);
    SkipNodes(inner, sel, children);
    RunConcat(inner, sel, AllEvents(children), [CloseTag(closeEnd)] + rest);
    RunFirst(inner, sel, CloseTag(closeEnd), rest);
  }

  // Between two members: what the callbacks will still use.
  predicate AtTop(s: State, ranges: seq<Range>, separator: nat, blank: bool)
  {
    && s.depth == 1 && s.rootSeen && s.rule.None? && !s.reading
    && s.ranges == ranges && s.separatorStart == separator && s.whitespaceSeparator == blank
  }

  function MemberOpened(s: State, sel: Selection, e: Node): State
    requires e.Element?
  {
    s.(depth := 2, rule := FindRule(sel.rules, LocalName(e.name)),
       start := if s.whitespaceSeparator then s.separatorStart else e.tagStart, identity := "", identityCount := 0)
  }

  lemma MemberCloses(s: State, sel: Selection, e: Node, ranges: seq<Range>, separator: nat, blank: bool)
    requires sel.rules != [] && e.Element? && AtTop(s, ranges, separator, blank)
    ensures var r := Run(MemberOpened(s, sel, e), sel, AllEvents(e.children) + [CloseTag(e.closeEnd)]);
      var key := MemberKey(e, sel);
      && (r.Some? <==> key.Some?)
      && (key.Some? ==> AtTop(r.value,
            ranges + (if Selected(key.value, sel)
                      then [Range(if blank then separator else e.tagStart, e.closeEnd, key.value.value)] else []),
            e.closeEnd, true))
  {
    var inner := MemberOpened(s, sel, e);
    RunConcat(inner, sel, AllEvents(e.children), [CloseTag(e.closeEnd)]);
    if inner.rule.None? {
      SkipNodes(inner, sel, e.children);
      RunFirst(inner, sel, CloseTag(e.closeEnd), []);
    } else {
      CollectedRun(inner, sel, inner.rule.value, e.children);
      var id := Collected(e.children, inner.rule.value, Identity("", 0));
      if id.Some? {
        RunFirst(inner.(identity := id.value.text, identityCount := id.value.count), sel, CloseTag(e.closeEnd), []);
      }
    }
    assert [CloseTag(e.closeEnd)] + [] == [CloseTag(e.closeEnd)];
  }

  ghost predicate Finds(r: Option<State>, ranges: seq<Range>, more: Option<seq<Range>>)
  {
    && (r.Some? <==> more.Some?)
    && (r.Some? ==> AtTop(r.value, ranges + more.value, r.value.separatorStart, r.value.whitespaceSeparator))
  }

  lemma {:induction false} TopRun(s: State, sel: Selection, ns: Nodes, ranges: seq<Range>, separator: nat, blank: bool)
    requires sel.rules != [] && AtTop(s, ranges, separator, blank)
    ensures Finds(Run(s, sel, AllEvents(ns)), ranges, MemberRanges(ns, sel, separator, blank))
    decreases ns
  {
    match ns
    case Empty =>
      assert ranges + [] == ranges;
    case More(Element(name, tagStart, openEnd, children, closeEnd), tail) =>
      TopMember(s, sel, ns.head, AllEvents(tail), ranges, separator, blank);
      var r := Run(s, sel, Events(ns.head));
      var key := MemberKey(ns.head, sel);
      if key.Some? {
        var found := if Selected(key.value, sel) then [Range(if blank then separator else tagStart, closeEnd, key.value.value)] else [];
        TopRun(r.value, sel, tail, ranges + found, closeEnd, true);
        var rest := MemberRanges(tail, sel, closeEnd, true);
        if rest.Some? { assert (ranges + found) + rest.value == ranges + (found + rest.value); }
      }
    case More(Text(v), tail) =>
      RunFirst(s, sel, Words(v), AllEvents(tail));
      TopRun(if IsBlank(v) then s else s.(whitespaceSeparator := false), sel, tail, ranges, separator, blank && IsBlank(v));
    case More(CDataText(v), tail) =>
      RunFirst(s, sel, CData(v), AllEvents(tail));
      TopRun(s.(whitespaceSeparator := false), sel, tail, ranges, separator, false);
    case More(Remark, tail) =>
      RunFirst(s, sel, Note, AllEvents(tail));
      TopRun(s.(whitespaceSeparator := false), sel, tail, ranges, separator, false);
  }

  lemma TopMember(s: State, sel: Selection, e: Node, rest: seq<Event>, ranges: seq<Range>, separator: nat, blank: bool)
    requires sel.rules != [] && e.Element? && AtTop(s, ranges, separator, blank)
    ensures Run(s, sel, Events(e) + rest) == RunOn(Run(s, sel, Events(e)), sel, rest)
    ensures var r := Run(s, sel, Events(e)); var key := MemberKey(e, sel);
      && (r.Some? <==> key.Some?)
      && (key.Some? ==> AtTop(r.value,
            ranges + (if Selected(key.value, sel)
                      then [Range(if blank then separator else e.tagStart, e.closeEnd, key.value.value)] else []),
            e.closeEnd, true))
  {
    RunConcat(s, sel, Events(e), rest);
    MemberCloses(s, sel, e, ranges, separator, blank);
    RunFirst(s, sel, OpenTag(e.name, e.tagStart, e.openEnd), AllEvents(e.children) + [CloseTag(e.closeEnd)]);
  }

  // The callbacks accept a document exactly when its root and members are as expected, and
  // then hold exactly the ranges of the selected members, in document order.
  lemma CallbacksFindRanges(root: Node, sel: Selection)
    requires root.Element? && sel.rules != []
    ensures var r := Run(START, sel, Events(root)); var found := RangesOf(root, sel);
      && (r.Some? <==> found.Some?)
      && (r.Some? ==> r.value.ranges == found.value && r.value.depth == 0 && r.value.rootSeen)
  {
    var rest := AllEvents(root.children) + [CloseTag(root.closeEnd)];
    RunFirst(START, sel, OpenTag(root.name, root.tagStart, root.openEnd), rest);
    if LocalName(root.name) == sel.rules[0].parent {
      var top := START.(depth := 1, rootSeen := true, separatorStart := root.openEnd);
      TopRun(top, sel, root.children, [], root.openEnd, true);
      RunConcat(top, sel, AllEvents(root.children), [CloseTag(root.closeEnd)]);
      var r := Run(top, sel, AllEvents(root.children));
      if r.Some? {
        RunFirst(r.value, sel, CloseTag(root.closeEnd), []);
        assert [CloseTag(root.closeEnd)] + [] == [CloseTag(root.closeEnd)];
        assert [] + RangesOf(root, sel).value == RangesOf(root, sel).value;
      }
    }
  }

  // ---- What the ranges are ----

  // Positions grow along the document: an element starts after what precedes it and ends
  // after it starts; `from` is where the last tag ended.
  predicate Placed(ns: Nodes, from: nat)
  {
    match ns
    case Empty => true
    case More(Element(_, tagStart, openEnd, _, closeEnd), tail) => from <= tagStart < openEnd <= closeEnd && Placed(tail, closeEnd)
    case More(_, tail) => Placed(tail, from)
  }

  function EndOf(ns: Nodes, from: nat): nat
  {
    match ns
    case Empty => from
    case More(Element(_, _, _, _, closeEnd), tail) => EndOf(tail, closeEnd)
    case More(_, tail) => EndOf(tail, from)
  }

  // The members to leave out, in document order, each with what came before it: where the
  // previous tag ended and whether only white space followed.
  datatype Excluded = Excluded(member: Node, key: string, separator: nat, blank: bool)

  function ExcludedMembers(ns: Nodes, sel: Selection, separator: nat, blank: bool): seq<Excluded>
  {
    match ns
    case Empty => []
    case More(Text(v), tail) => ExcludedMembers(tail, sel, separator, blank && IsBlank(v))
    case More(CDataText(_), tail) => ExcludedMembers(tail, sel, separator, false)
    case More(Remark, tail) => ExcludedMembers(tail, sel, separator, false)
    case More(e, tail) =>
      var key, rest := MemberKey(e, sel), ExcludedMembers(tail, sel, e.closeEnd, true);
      if key.Some? && Selected(key.value, sel) then [Excluded(e, key.value.value, separator, blank)] + rest else rest
  }

  // A range covers its member, from the opening bracket or, over white space only, from the
  // end of the tag before it.
  ghost predicate Covers(r: Range, x: Excluded)
  {
    && x.member.Element? && r.key == x.key && r.end == x.member.closeEnd
    && r.start == if x.blank then x.separator else x.member.tagStart
  }

  lemma {:induction false} RangesMatchMembers(ns: Nodes, sel: Selection, separator: nat, blank: bool)
    requires MemberRanges(ns, sel, separator, blank).Some?
    ensures var rs, xs := MemberRanges(ns, sel, separator, blank).value, ExcludedMembers(ns, sel, separator, blank);
      |rs| == |xs| && forall i | 0 <= i < |rs| :: Covers(rs[i], xs[i])
    decreases ns
  {
    match ns
    case Empty =>
    case More(Element(_, _, _, _, closeEnd), tail) => RangesMatchMembers(tail, sel, closeEnd, true);
    case More(Text(v), tail) => RangesMatchMembers(tail, sel, separator, blank && IsBlank(v));
    case More(_, tail) => RangesMatchMembers(tail, sel, separator, false);
  }

  lemma {:induction false} EndGrows(ns: Nodes, from: nat)
    requires Placed(ns, from)
    ensures from <= EndOf(ns, from)
  {
    match ns
    case Empty =>
    case More(Element(_, _, _, _, closeEnd), tail) => EndGrows(tail, closeEnd);
    case More(_, tail) => EndGrows(tail, from);
  }

  lemma PrependRange(r: Range, rs: seq<Range>, n: nat)
    requires Sorted(rs, n) && r.start < r.end <= n && forall i | 0 <= i < |rs| :: r.end <= rs[i].start
    ensures Sorted([r] + rs, n)
  {
    var all := [r] + rs;
    assert all[0] == r && forall i | 0 < i < |all| :: all[i] == rs[i - 1];
  }

  lemma {:induction false} RangesAreSorted(ns: Nodes, sel: Selection, separator: nat, blank: bool)
    requires Placed(ns, separator) && MemberRanges(ns, sel, separator, blank).Some?
    ensures var rs := MemberRanges(ns, sel, separator, blank).value;
      Sorted(rs, EndOf(ns, separator)) && forall i | 0 <= i < |rs| :: separator <= rs[i].start
    decreases ns
  {
    match ns
    case Empty =>
    case More(Element(_, tagStart, _, _, closeEnd), tail) =>
      RangesAreSorted(tail, sel, closeEnd, true);
      EndGrows(tail, closeEnd);
      var rest, key := MemberRanges(tail, sel, closeEnd, true).value, MemberKey(ns.head, sel).value;
      if Selected(key, sel) {
        PrependRange(Range(if blank then separator else tagStart, closeEnd, key.value), rest, EndOf(tail, closeEnd));
      }
    case More(Text(v), tail) => RangesAreSorted(tail, sel, separator, blank && IsBlank(v));
    case More(_, tail) => RangesAreSorted(tail, sel, separator, false);
  }

  // The ranges of an accepted document are sorted and disjoint and lie inside the root, and
  // they correspond one to one, in order, to the members that are to be left out.
  lemma RangesAreTheExcludedMembers(root: Node, sel: Selection)
    requires root.Element? && sel.rules != [] && RangesOf(root, sel).Some?
    requires Placed(root.children, root.openEnd) && EndOf(root.children, root.openEnd) <= root.closeEnd
    ensures var rs, xs := RangesOf(root, sel).value, ExcludedMembers(root.children, sel, root.openEnd, true);
      && Sorted(rs, root.closeEnd)
      && |rs| == |xs| && (forall i | 0 <= i < |rs| :: Covers(rs[i], xs[i]))
  {
    RangesMatchMembers(root.children, sel, root.openEnd, true);
    RangesAreSorted(root.children, sel, root.openEnd, true);
  }

  // ---- The callbacks as they are: fields updated by each event ----

  class RangeBuilder {
    const sel: Selection
    var depth: nat
    var rootSeen: bool
    var rule: Option<Rule>
    var start: nat
    var separatorStart: nat
    var whitespaceSeparator: bool
    var identity: string
    var identityCount: nat
    var reading: bool
    var ranges: seq<Range>

    ghost function Now(): State
      reads this
    {
      State(depth, rootSeen, rule, start, separatorStart, whitespaceSeparator, identity, identityCount, reading, ranges)
    }

    constructor (sel: Selection)
      ensures this.sel == sel && Now() == START
    {
      this.sel := sel;
      depth, rootSeen, rule, start, separatorStart := 0, false, None, 0, 0;
      whitespaceSeparator, identity, identityCount, reading, ranges := true, "", 0, false, [];
    }

    // Each callback either throws or leaves the state its step function gives.
    method Open(tag: string, tagStart: nat, position: nat) returns (thrown: bool)
      requires sel.rules != []
      modifies this
      ensures thrown <==> OnOpenTag(old(Now()), sel, tag, tagStart, position).None?
      ensures !thrown ==> Now() == OnOpenTag(old(Now()), sel, tag, tagStart, position).value
    {
      depth := depth + 1;
      if depth > MAX_DEPTH { return true; }
      var name := LocalName(tag);
      if depth == 1 {
        if rootSeen || name != sel.rules[0].parent { return true; }
        rootSeen := true;
        separatorStart := position;
      }
      if depth == 2 {
        rule := FindRule(sel.rules, name);
        start := if whitespaceSeparator then separatorStart else tagStart;
        identity := "";
        identityCount := 0;
      }
      if rule.Some? && depth == 3 && name == rule.value.identity {
        reading := true;
        identityCount := identityCount + 1;
      } else if reading {
        return true;
      }
      return false;
    }

    method Write(value: string) returns (thrown: bool)
      modifies this
      ensures thrown <==> OnText(old(Now()), value).None?
      ensures !thrown ==> Now() == OnText(old(Now()), value).value
    {
      if depth == 1 && !IsBlank(value) { whitespaceSeparator := false; }
      if reading {
        identity := identity + value;
        if |identity| > MAX_IDENTITY { return true; }
      }
      return false;
    }

    method Interrupt()
      modifies this
      ensures Now() == OnNote(old(Now()))
    {
      if depth == 1 { whitespaceSeparator := false; }
    }

    method Close(position: nat) returns (thrown: bool)
      requires depth > 0
      modifies this
      ensures thrown <==> OnCloseTag(old(Now()), sel, position).None?
      ensures !thrown ==> Now() == OnCloseTag(old(Now()), sel, position).value
    {
      if depth == 3 { reading := false; }
      if depth == 2 {
        if rule.Some? {
          if identityCount != 1 || !ValidIdentity(identity) { return true; }
          var key := KeyOf(sel, rule.value, identity);
          if key in sel.excluded { ranges := ranges + [Range(start, position, key)]; }
        }
        rule := None;
        separatorStart := position;
        whitespaceSeparator := true;
      }
      depth := depth - 1;
      return false;
    }

    method Handle(e: Event) returns (thrown: bool)
      requires sel.rules != []
      modifies this
      ensures thrown <==> Step(old(Now()), sel, e).None?
      ensures !thrown ==> Now() == Step(old(Now()), sel, e).value
    {
      match e
      case OpenTag(name, tagStart, position) => thrown := Open(name, tagStart, position);
      case Words(value) => thrown := Write(value);
      case CData(value) =>
        Interrupt();
        thrown := Write(value);
      case Note =>
        Interrupt();
        thrown := false;
      case CloseTag(position) =>
        if depth == 0 { return true; }
        thrown := Close(position);
    }
  }

  // Both passes: a well-formed document loses exactly the text of its excluded members.
  method FilterPackageChildren(root: Node, chunks: seq<string>, sel: Selection) returns (r: Option<(string, seq<string>)>)
    requires root.Element? && sel.rules != []
    requires Placed(root.children, root.openEnd) && EndOf(root.children, root.openEnd) <= root.closeEnd <= |TextNormalization.Concat(chunks)|
    ensures r.Some? <==> RangesOf(root, sel).Some?
    ensures r.Some? ==>
      var ranges := RangesOf(root, sel).value; var text := TextNormalization.Concat(chunks);
      && r.value.0 == Outside(text, ranges, |text|)
      && |r.value.1| == |ranges| && (forall i | 0 <= i < |ranges| :: r.value.1[i] == ranges[i].key)
  {
    var builder := new RangeBuilder(sel);
    var events := Events(root);
    var i := 0;
    CallbacksFindRanges(root, sel);
    while i < |events|
      invariant i <= |events| && fresh(builder) && builder.sel == sel
      invariant Run(START, sel, events) == Run(builder.Now(), sel, events[i..])
    {
      var thrown := builder.Handle(events[i]);
      if thrown { return None; }
      assert events[i..][1..] == events[i + 1..];
      i := i + 1;
    }
    assert Run(START, sel, events) == Some(builder.Now());
    RangesAreTheExcludedMembers(root, sel);
    WiderIsSorted(builder.ranges, root.closeEnd, |TextNormalization.Concat(chunks)|);
    var written := DeleteRanges(chunks, builder.ranges);
    r := Some((written, seq(|builder.ranges|, k requires 0 <= k < |builder.ranges| reads builder => builder.ranges[k].key)));
  }

  lemma WiderIsSorted(ranges: seq<Range>, n: nat, m: nat)
    requires Sorted(ranges, n) && n <= m
    ensures Sorted(ranges, m)
  {
  }
}
