// String facts shared by the XML comparison modules: the lexicographic sort used for
// names and digests, dot counting, and the bracket stripping applied to schema paths.
module StringKit {

  // ---- Lexicographic order and sorting (Array.prototype.sort on strings) ----

  predicate LexLeq(a: string, b: string)
  {
    if a == "" then true
    else if b == "" then false
    else if a[0] != b[0] then a[0] < b[0]
    else LexLeq(a[1..], b[1..])
  }

  lemma {:induction false} LexTotal(a: string, b: string)
    ensures LexLeq(a, b) || LexLeq(b, a)
    ensures LexLeq(a, b) && LexLeq(b, a) ==> a == b
  {
    if a != "" && b != "" {
      LexTotal(a[1..], b[1..]);
      if a[0] == b[0] && a[1..] == b[1..] {
        assert a == [a[0]] + a[1..] && b == [b[0]] + b[1..];
      }
    }
  }

  lemma {:induction false} LexTransitive(a: string, b: string, c: string)
    requires LexLeq(a, b) && LexLeq(b, c)
    ensures LexLeq(a, c)
  {
    if a != "" && b != "" && c != "" && a[0] == b[0] && b[0] == c[0] {
      LexTransitive(a[1..], b[1..], c[1..]);
    }
  }

  ghost predicate SortedList(s: seq<string>)
  {
    forall i, j | 0 <= i < j < |s| :: LexLeq(s[i], s[j])
  }

  function Insert(x: string, s: seq<string>): (r: seq<string>)
    ensures multiset(r) == multiset([x]) + multiset(s)
  {
    if s == [] then [x]
    else if LexLeq(x, s[0]) then [x] + s
    else
      assert s == [s[0]] + s[1..];
      [s[0]] + Insert(x, s[1..])
  }

  function Sort(s: seq<string>): (r: seq<string>)
    ensures multiset(r) == multiset(s)
    ensures |r| == |s|
  {
    if s == [] then []
    else
      assert s == [s[0]] + s[1..];
      var r := Insert(s[0], Sort(s[1..]));
      SameSize(r, s);
      r
  }

  lemma SameSize(a: seq<string>, b: seq<string>)
    requires multiset(a) == multiset(b)
    ensures |a| == |b|
  {
    assert |multiset(a)| == |a| && |multiset(b)| == |b|;
  }

  lemma {:induction false} InsertKeepsOrder(x: string, s: seq<string>)
    requires SortedList(s)
    ensures SortedList(Insert(x, s))
  {
    if s == [] {
    } else if LexLeq(x, s[0]) {
      forall j | 0 <= j < |s| ensures LexLeq(x, s[j]) {
        if j > 0 { LexTransitive(x, s[0], s[j]); }
      }
    } else {
      LexTotal(x, s[0]);
      InsertKeepsOrder(x, s[1..]);
      var rest := Insert(x, s[1..]);
      forall j | 0 <= j < |rest| ensures LexLeq(s[0], rest[j]) {
        assert rest[j] in multiset(rest);
        assert rest[j] == x || rest[j] in s[1..];
        if rest[j] != x {
          var k :| 0 <= k < |s[1..]| && s[1..][k] == rest[j];
          assert s[k + 1] == rest[j];
        }
      }
    }
  }

  lemma {:induction false} SortIsSorted(s: seq<string>)
    ensures SortedList(Sort(s))
  {
    if s != [] {
      SortIsSorted(s[1..]);
      InsertKeepsOrder(s[0], Sort(s[1..]));
    }
  }

  lemma HeadIsLeast(s: seq<string>, x: string)
    requires SortedList(s) && x in s
    ensures LexLeq(s[0], x) || s[0] == x
  {
    var j :| 0 <= j < |s| && s[j] == x;
    assert j == 0 || LexLeq(s[0], s[j]);
  }

  lemma {:induction false} SortedPermutationsAgree(a: seq<string>, b: seq<string>)
    requires SortedList(a) && SortedList(b) && multiset(a) == multiset(b)
    ensures a == b
  {
    SameSize(a, b);
    if a != [] {
      assert a[0] in multiset(b) && b[0] in multiset(a);
      LexTotal(a[0], b[0]);
      HeadIsLeast(a, b[0]);
      HeadIsLeast(b, a[0]);
      assert a == [a[0]] + a[1..] && b == [b[0]] + b[1..];
      assert multiset(a[1..]) == multiset(a) - multiset([a[0]]);
      assert multiset(b[1..]) == multiset(b) - multiset([b[0]]);
      SortedPermutationsAgree(a[1..], b[1..]);
    }
  }

  // Sorting keeps exactly the information which strings occur, and how often.
  lemma SortIsCanonical(a: seq<string>, b: seq<string>)
    ensures Sort(a) == Sort(b) <==> multiset(a) == multiset(b)
  {
    if multiset(a) == multiset(b) {
      SortIsSorted(a);
      SortIsSorted(b);
      SortedPermutationsAgree(Sort(a), Sort(b));
    }
  }

  function Without<T>(s: seq<T>, j: nat): (r: seq<T>)
    requires j < |s|
    ensures |r| == |s| - 1 && multiset(r) + multiset([s[j]]) == multiset(s)
    ensures forall k | 0 <= k < |r| :: r[k] == s[if k < j then k else k + 1]
  {
    assert s == s[..j] + [s[j]] + s[j + 1..];
    s[..j] + s[j + 1..]
  }

  ghost predicate SameEqualities<A, B>(xs: seq<A>, ys: seq<A>, us: seq<B>, vs: seq<B>)
  {
    && |xs| == |us| && |ys| == |vs|
    && forall i, j | 0 <= i < |xs| && 0 <= j < |ys| :: xs[i] == ys[j] <==> us[i] == vs[j]
  }

  lemma SameEqualitiesWithout<A, B>(xs: seq<A>, ys: seq<A>, us: seq<B>, vs: seq<B>, j: nat)
    requires SameEqualities(xs, ys, us, vs) && 0 < |xs| && j < |ys|
    ensures SameEqualities(xs[1..], Without(ys, j), us[1..], Without(vs, j))
  {
  }

  // Two pairs of lists whose cross-equalities coincide are permutations together.
  lemma {:induction false} PermutationTransfer<A, B>(xs: seq<A>, ys: seq<A>, us: seq<B>, vs: seq<B>)
    requires SameEqualities(xs, ys, us, vs)
    requires multiset(xs) == multiset(ys)
    ensures multiset(us) == multiset(vs)
  {
    if xs == [] {
      assert |multiset(ys)| == |ys|;
    } else {
      var j := Occurrence(ys, xs[0], multiset(xs));
      HeadAside(xs);
      HeadAside(us);
      Cancel(multiset(xs[1..]), multiset(Without(ys, j)), xs[0]);
      SameEqualitiesWithout(xs, ys, us, vs, j);
      PermutationTransfer(xs[1..], Without(ys, j), us[1..], Without(vs, j));
    }
  }

  lemma Occurrence<T>(s: seq<T>, x: T, m: multiset<T>) returns (j: nat)
    requires m == multiset(s) && x in m
    ensures j < |s| && s[j] == x
  {
    j :| 0 <= j < |s| && s[j] == x;
  }

  lemma HeadAside<T>(s: seq<T>)
    requires s != []
    ensures multiset(s[1..]) + multiset([s[0]]) == multiset(s)
  {
    assert s == [s[0]] + s[1..];
  }

  lemma Cancel<T>(a: multiset<T>, b: multiset<T>, x: T)
    requires a + multiset([x]) == b + multiset([x])
    ensures a == b
  {
    assert a == (a + multiset([x])) - multiset([x]);
    assert b == (b + multiset([x])) - multiset([x]);
  }

  // ---- Schema paths ----

  function IndexOf(s: string, c: char): (i: nat)
    ensures i <= |s|
    ensures forall j | 0 <= j < i :: s[j] != c
    ensures i < |s| ==> s[i] == c
  {
    if s == "" || s[0] == c then 0
    else
      var i := IndexOf(s[1..], c);
      assert forall j | 0 < j < i + 1 :: s[j] == s[1..][j - 1];
      i + 1
  }

  // Removes every "[...]" group: an opening bracket together with everything up to the
  // first closing bracket after it. An opening bracket that is never closed stays.
  function StripBrackets(s: string): string
    decreases |s|
  {
    if s == "" then ""
    else if s[0] == '[' && IndexOf(s, ']') < |s| then StripBrackets(s[IndexOf(s, ']') + 1..])
    else [s[0]] + StripBrackets(s[1..])
  }

  // Text in which no group is left open, so stripping does not reach past its end.
  predicate Closed(s: string)
    decreases |s|
  {
    if s == "" then true
    else if s[0] == '[' then IndexOf(s, ']') < |s| && Closed(s[IndexOf(s, ']') + 1..])
    else Closed(s[1..])
  }

  predicate Bracketless(s: string)
  {
    '[' !in s && ']' !in s
  }

  lemma IndexOfUnique(s: string, c: char, i: nat)
    requires i < |s| && s[i] == c && forall j | 0 <= j < i :: s[j] != c
    ensures IndexOf(s, c) == i
  {
  }

  lemma {:induction false} StripConcat(a: string, b: string)
    requires Closed(a)
    ensures StripBrackets(a + b) == StripBrackets(a) + StripBrackets(b)
    ensures Closed(b) ==> Closed(a + b)
    decreases |a|
  {
    if a == "" {
      assert a + b == b;
    } else if a[0] == '[' {
      var i := IndexOf(a, ']');
      IndexOfUnique(a + b, ']', i);
      assert (a + b)[i + 1..] == a[i + 1..] + b;
      StripConcat(a[i + 1..], b);
    } else {
      assert (a + b)[1..] == a[1..] + b;
      StripConcat(a[1..], b);
    }
  }

  lemma {:induction false} BracketlessIsPlain(s: string)
    requires Bracketless(s)
    ensures Closed(s) && StripBrackets(s) == s
  {
    if s != "" {
      assert Bracketless(s[1..]) by {
        forall c | c in s[1..] ensures c in s {}
      }
      BracketlessIsPlain(s[1..]);
    }
  }

  // Anything ending in a closing bracket whose own opening bracket leads is closed.
  lemma {:induction false} EndsClosed(s: string)
    requires s != "" && s[|s| - 1] == ']'
    ensures Closed(s)
    decreases |s|
  {
    if s[0] == '[' {
      var i := IndexOf(s, ']');
      assert i <= |s| - 1;
      var rest := s[i + 1..];
      if rest != "" {
        assert rest[|rest| - 1] == s[|s| - 1];
        EndsClosed(rest);
      }
    } else if |s| > 1 {
      assert s[1..][|s| - 2] == s[|s| - 1];
      EndsClosed(s[1..]);
    }
  }

  // ---- White space (the class matched by String.prototype.trim and /\s/u) ----

  predicate IsWhitespace(c: char)
  {
    c in {'\t', '\n', '\U{000B}', '\U{000C}', '\r', ' ', '\U{00A0}', '\U{1680}', '\U{2028}', '\U{2029}',
          '\U{202F}', '\U{205F}', '\U{3000}', '\U{FEFF}'}
    || '\U{2000}' <= c <= '\U{200A}'
  }

  predicate IsBlank(s: string)
  {
    forall i | 0 <= i < |s| :: IsWhitespace(s[i])
  }
}
