/** Rendering the dependency subgraph as a tree with repeats marked. */
module DepTree {
  import opened Basics
  import opened Service
  import opened Paths
  import opened StartOrder
  import opened TreeLines

  datatype DepNode = DepNode(name: string, state: ServiceState)

  // ----- sorting names -----

  function Insert(x: string, s: seq<string>): (r: seq<string>)
    ensures forall y :: y in r <==> y == x || y in s
    ensures |r| == |s| + 1
  {
    if s == [] then [x]
    else if NameLess(s[0], x) then
      assert s == [s[0]] + s[1..];
      [s[0]] + Insert(x, s[1..])
    else [x] + s
  }

  function Sort(s: seq<string>): (r: seq<string>)
    ensures forall y :: y in r <==> y in s
    ensures |r| == |s|
  {
    if s == [] then []
    else
      assert s == [s[0]] + s[1..];
      Insert(s[0], Sort(s[1..]))
  }

  /** `Vec::dedup`: drop an element equal to its predecessor. */
  function Dedup(s: seq<string>): (r: seq<string>)
    ensures forall y :: y in r <==> y in s
  {
    if |s| <= 1 then s
    else
      assert s == [s[0]] + s[1..];
      if s[0] == s[1] then Dedup(s[1..]) else [s[0]] + Dedup(s[1..])
  }

  lemma {:induction false} InsertAscending(x: string, s: seq<string>)
    requires Ascending(s)
    ensures Ascending(Insert(x, s))
  {
    if s != [] {
      var r := Insert(x, s);
      NameTotal(s[0], x);
      if NameLess(s[0], x) {
        InsertAscending(x, s[1..]);
        forall i, j | 0 <= i < j < |r|
          ensures !NameLess(r[j], r[i])
        {
          if i == 0 {
            assert r[j] in Insert(x, s[1..]);
            assert r[j] == x || r[j] in s[1..];
          } else {
            assert r[i] == Insert(x, s[1..])[i - 1] && r[j] == Insert(x, s[1..])[j - 1];
          }
        }
      } else {
        forall i, j | 0 <= i < j < |r|
          ensures !NameLess(r[j], r[i])
        {
          if i == 0 && j > 1 && NameLess(r[j], x) {
            NameTotal(s[j - 1], s[0]);
            if s[0] != s[j - 1] {
              assert NameLess(s[0], s[j - 1]);
              NameTransitive(s[0], s[j - 1], x);
            }
          }
        }
      }
    }
  }

  lemma {:induction false} SortAscending(s: seq<string>)
    ensures Ascending(Sort(s))
  {
    if s != [] {
      SortAscending(s[1..]);
      InsertAscending(s[0], Sort(s[1..]));
    }
  }

  lemma LaterIsGreater(s: seq<string>, k: nat)
    requires Ascending(s) && 1 <= k < |s| && s[0] != s[1]
    ensures s[0] != s[k] && !NameLess(s[k], s[0])
  {
    NameTotal(s[0], s[1]);
    assert NameLess(s[0], s[1]);
    NameTotal(s[1], s[k]);
    if s[1] != s[k] {
      NameTransitive(s[0], s[1], s[k]);
    }
    NameTotal(s[0], s[k]);
  }

  /** After sorting, deduplication leaves every name once. */
  lemma {:induction false} DedupDistinct(s: seq<string>)
    requires Ascending(s)
    ensures Distinct(Dedup(s)) && Ascending(Dedup(s))
  {
    if |s| > 1 {
      DedupDistinct(s[1..]);
      var rest := Dedup(s[1..]);
      if s[0] != s[1] {
        var r := Dedup(s);
        forall j | 0 < j < |r|
          ensures r[0] != r[j] && !NameLess(r[j], r[0])
        {
          assert r[j] in rest;
          var k :| 1 <= k < |s| && s[k] == r[j];
          LaterIsGreater(s, k);
        }
        forall i, j | 0 <= i < j < |r|
          ensures r[i] != r[j] && !NameLess(r[j], r[i])
        {
          if i > 0 {
            assert r[i] == rest[i - 1] && r[j] == rest[j - 1];
          }
        }
      }
    }
  }

  // ----- children -----

  /** Every parent lists each of its children once, in ascending order. */
  ghost predicate ChildrenOf(edges: seq<Edge>, children: Children) {
    && (forall p, c :: c in Kids(children, p) <==> (p, c) in edges)
    && (forall p :: Distinct(Kids(children, p)) && Ascending(Kids(children, p)))
  }

  method CollectChildren(edges: seq<Edge>) returns (children: Children, hasParent: set<string>)
    ensures forall p, c :: c in Kids(children, p) <==> (p, c) in edges
    ensures forall c :: c in hasParent <==> exists p :: (p, c) in edges
  {
    children, hasParent := map[], {};
    for i := 0 to |edges|
      invariant forall p, c :: c in Kids(children, p) <==> (p, c) in edges[..i]
      invariant forall c :: c in hasParent <==> exists p :: (p, c) in edges[..i]
    {
      var (from, to) := edges[i];
      assert edges[..i + 1] == edges[..i] + [(from, to)];
      children := children[from := Kids(children, from) + [to]];
      hasParent := hasParent + {to};
      forall c
        ensures c in hasParent <==> exists p :: (p, c) in edges[..i + 1]
      {
        if c == to {
          assert (from, c) in edges[..i + 1];
        }
      }
    }
    assert edges[..|edges|] == edges;
  }

  method SortChildren(edges: seq<Edge>, children0: Children) returns (children: Children)
    requires forall p, c :: c in Kids(children0, p) <==> (p, c) in edges
    ensures ChildrenOf(edges, children)
  {
    children := children0;
    var todo := children.Keys;
    while todo != {}
      invariant todo <= children.Keys
      invariant forall p, c :: c in Kids(children, p) <==> (p, c) in edges
      invariant forall p :: p !in todo ==> Distinct(Kids(children, p)) && Ascending(Kids(children, p))
      decreases todo
    {
      ghost var some := Pick(todo);
      var p :| p in todo;
      var kids := Dedup(Sort(children[p]));
      SortAscending(children[p]);
      DedupDistinct(Sort(children[p]));
      children := children[p := kids];
      todo := todo - {p};
    }
  }

  // ----- the lines of the tree -----

  function Texts(lines: seq<Line>): seq<string> {
    seq(|lines|, i requires 0 <= i < |lines| => Render(lines[i]))
  }

  function RenderAll(lines: seq<Line>): string {
    Flatten(Texts(lines))
  }

  lemma RenderAppend(a: seq<Line>, b: seq<Line>)
    ensures RenderAll(a + b) == RenderAll(a) + RenderAll(b)
  {
    assert Texts(a + b) == Texts(a) + Texts(b);
    FlattenAppend(Texts(a), Texts(b));
  }

  lemma RenderOne(l: Line)
    ensures RenderAll([l]) == Render(l)
  {
    var texts := Texts([l]);
    assert texts[..0] == [];
    assert Flatten(texts) == Flatten(texts[..0]) + texts[0];
  }

  /** How often the edge from `p` to `c` is printed. */
  function EdgeLines(lines: seq<Line>, p: string, c: string): nat
    decreases |lines|
  {
    if lines == [] then 0
    else
      var l := lines[|lines| - 1];
      EdgeLines(lines[..|lines| - 1], p, c) + if l.parent == Some(p) && l.name == c then 1 else 0
  }

  /** How often `x` is printed without the repeat marker. */
  function FirstShowings(lines: seq<Line>, x: string): nat
    decreases |lines|
  {
    if lines == [] then 0
    else
      var l := lines[|lines| - 1];
      FirstShowings(lines[..|lines| - 1], x) + if l.name == x && !l.already then 1 else 0
  }

  function RootNames(lines: seq<Line>): seq<string>
    decreases |lines|
  {
    if lines == [] then []
    else
      var l := lines[|lines| - 1];
      RootNames(lines[..|lines| - 1]) + if l.parent.None? then [l.name] else []
  }

  lemma {:induction false} CountsAppend(a: seq<Line>, b: seq<Line>, p: string, c: string)
    ensures EdgeLines(a + b, p, c) == EdgeLines(a, p, c) + EdgeLines(b, p, c)
    ensures FirstShowings(a + b, c) == FirstShowings(a, c) + FirstShowings(b, c)
    ensures RootNames(a + b) == RootNames(a) + RootNames(b)
    decreases |b|
  {
    if b == [] {
      assert a + b == a;
    } else {
      var k := |b| - 1;
      CountsAppend(a, b[..k], p, c);
      assert (a + b)[..|a + b| - 1] == a + b[..k];
    }
  }

  /** What a stretch of output says, when the nodes `fresh` were expanded in it and the edges
      `extra` from already open nodes were printed: every child of a fresh node once, every fresh
      node shown once in full, and nothing else. */
  ghost predicate Shows(lines: seq<Line>, children: Children, expanded: set<string>, extra: set<Edge>) {
    && (forall p, c :: EdgeLines(lines, p, c) ==
          (if p in expanded && c in Kids(children, p) then 1 else 0) + if (p, c) in extra then 1 else 0)
    && (forall x :: FirstShowings(lines, x) == if x in expanded then 1 else 0)
  }

  lemma ShowsAppend(a: seq<Line>, b: seq<Line>, children: Children, ea: set<string>, eb: set<string>,
                    xa: set<Edge>, xb: set<Edge>)
    requires Shows(a, children, ea, xa) && Shows(b, children, eb, xb)
    requires ea !! eb && xa !! xb
    ensures Shows(a + b, children, ea + eb, xa + xb)
  {
    forall p, c
      ensures EdgeLines(a + b, p, c) ==
              (if p in ea + eb && c in Kids(children, p) then 1 else 0) + if (p, c) in xa + xb then 1 else 0
      ensures FirstShowings(a + b, c) == if c in ea + eb then 1 else 0
    {
      CountsAppend(a, b, p, c);
    }
  }

  // ----- depth-first output -----

  /** Every expanded node that is not being worked on has all its children expanded. */
  ghost predicate ClosedExcept(children: Children, expanded: set<string>, open: set<string>) {
    forall x, c :: x in expanded && x !in open && c in Kids(children, x) ==> c in expanded
  }

  ghost predicate Within(children: Children, universe: set<string>) {
    forall x, c :: x in universe && c in Kids(children, x) ==> c in universe
  }

  /** The edge that leads to a printed node, if it has a parent. */
  function EdgeTo(parent: Option<string>, name: string): set<Edge> {
    if parent.Some? then {(parent.value, name)} else {}
  }

  function EdgesTo(p: string, kids: seq<string>): set<Edge> {
    set k | k in kids :: (p, k)
  }

  ghost predicate ReachedFrom(edges: set<Edge>, from: string, nodes: set<string>) {
    forall x :: x in nodes ==> Reaches(edges, from, x)
  }

  lemma OneLine(l: Line, children: Children)
    ensures RenderAll([l]) == Render(l)
    ensures l.already ==> Shows([l], children, {}, EdgeTo(l.parent, l.name))
    ensures RootNames([l]) == if l.parent.None? then [l.name] else []
  {
    assert [l][..0] == [];
    RenderOne(l);
    forall p, c
      ensures EdgeLines([l], p, c) == if (p, c) in EdgeTo(l.parent, l.name) then 1 else 0
      ensures FirstShowings([l], c) == if l.name == c && !l.already then 1 else 0
    {
      assert EdgeLines([], p, c) == 0 && FirstShowings([], c) == 0;
    }
  }

  /** A node's own line and the stretch of output for all of its children. */
  lemma NodeShows(l: Line, rest: seq<Line>, children: Children, added: set<string>)
    requires !l.already && l.name !in added
    requires l.parent.Some? ==> l.parent.value != l.name
    requires Shows(rest, children, added, EdgesTo(l.name, Kids(children, l.name)))
    ensures Shows([l] + rest, children, added + {l.name}, EdgeTo(l.parent, l.name))
  {
    forall p, c
      ensures EdgeLines([l] + rest, p, c) ==
              (if p in added + {l.name} && c in Kids(children, p) then 1 else 0)
              + if (p, c) in EdgeTo(l.parent, l.name) then 1 else 0
      ensures FirstShowings([l] + rest, c) == if c in added + {l.name} then 1 else 0
    {
      CountsAppend([l], rest, p, c);
      assert [l][..0] == [];
      assert EdgeLines([], p, c) == 0 && FirstShowings([], c) == 0;
      assert EdgeLines([l], p, c) == if (p, c) in EdgeTo(l.parent, l.name) then 1 else 0;
      assert (p, c) in EdgesTo(l.name, Kids(children, l.name)) <==> p == l.name && c in Kids(children, l.name);
    }
  }

  /** The children lists describe `edges` and stay within a finite set of names. */
  ghost predicate Graph(children: Children, edges: set<Edge>, universe: set<string>) {
    && Within(children, universe)
    && (forall p :: Distinct(Kids(children, p)) && Ascending(Kids(children, p)))
    && (forall p, c :: c in Kids(children, p) ==> (p, c) in edges)
  }

  /** From `from`, the search marked `after` on top of `before`: only reachable nodes, and nothing
      left behind except at the nodes still `open`. */
  ghost predicate Marked(children: Children, edges: set<Edge>, universe: set<string>, open: set<string>,
                         from: string, before: set<string>, after: set<string>)
  {
    && before <= after <= universe
    && ClosedExcept(children, after, open)
    && ReachedFrom(edges, from, after - before)
  }

  /** The text added to `out` is `lines`, and they show exactly what was marked. */
  ghost predicate Printed(out: string, out': string, lines: seq<Line>, children: Children,
                          before: set<string>, after: set<string>, extra: set<Edge>)
  {
    out' == out + RenderAll(lines) && Shows(lines, children, after - before, extra)
  }

  lemma RepeatPrinted(out: string, line: Line, children: Children, expanded: set<string>)
    requires line.already
    ensures Printed(out, out + Render(line), [line], children, expanded, expanded, EdgeTo(line.parent, line.name))
  {
    OneLine(line, children);
    assert expanded - expanded == {};
  }

  lemma NodeText(out: string, line: Line, rest: seq<Line>)
    ensures out + Render(line) + RenderAll(rest) == out + RenderAll([line] + rest)
  {
    RenderOne(line);
    RenderAppend([line], rest);
    Associate(out, Render(line), RenderAll(rest));
  }

  lemma NodePrinted(out: string, line: Line, out': string, rest: seq<Line>, children: Children,
                    expanded: set<string>, after: set<string>)
    requires !line.already && line.name !in expanded && expanded + {line.name} <= after
    requires line.parent.Some? ==> line.parent.value in expanded
    requires Printed(out + Render(line), out', rest, children, expanded + {line.name}, after,
                     EdgesTo(line.name, Kids(children, line.name)))
    ensures Printed(out, out', [line] + rest, children, expanded, after, EdgeTo(line.parent, line.name))
  {
    NodeText(out, line, rest);
    NodeShows(line, rest, children, after - (expanded + {line.name}));
    assert after - (expanded + {line.name}) + {line.name} == after - expanded;
  }

  lemma NodeMarked(children: Children, edges: set<Edge>, universe: set<string>, open: set<string>,
                   name: string, expanded: set<string>, after: set<string>)
    requires Marked(children, edges, universe, open, name, expanded + {name}, after)
    ensures Marked(children, edges, universe, open, name, expanded, after)
  {
    ReachesSelf(edges, name);
  }

  /** `kid` is a child of `parent`, and `last` says whether it is the last one. */
  ghost predicate IsKid(children: Children, parent: string, kid: string, last: bool) {
    var kids := Kids(children, parent);
    kid in kids && (last <==> kid == kids[|kids| - 1])
  }

  /** Print a node; when it was not shown before, mark it and print its children below it. */
  method WriteTreeNode(out: string, name: string, parent: Option<string>, prefix: string, isLast: bool,
                       children: Children, states: map<string, ServiceState>, expanded: set<string>,
                       ghost edges: set<Edge>, ghost universe: set<string>, ghost open: set<string>)
    returns (out': string, expanded': set<string>, ghost lines: seq<Line>)
    requires Graph(children, edges, universe)
    requires name in universe && expanded <= universe
    requires open <= expanded && ClosedExcept(children, expanded, open)
    requires parent.Some? ==> parent.value in expanded && IsKid(children, parent.value, name, isLast)
    ensures name in expanded' && Marked(children, edges, universe, open, name, expanded, expanded')
    ensures Printed(out, out', lines, children, expanded, expanded', EdgeTo(parent, name))
    ensures RootNames(lines) == if parent.None? then [name] else []
    ensures Layout(lines, children, states, Place(expanded, parent, prefix), expanded') && Heads(lines, parent, name)
    decreases universe - expanded, 0
  {
    var line := Line(parent, name, prefix, isLast, StateText(states, name), name in expanded);
    out' := out + Render(line);
    OneLine(line, children);
    if line.already {
      expanded', lines := expanded, [line];
      RepeatPrinted(out, line, children, expanded);
      return;
    }
    ghost var rest: seq<Line>;
    out', expanded', rest := WriteKids(out', name, ChildPrefix(line), children, states, expanded + {name}, edges, universe, open);
    NodePrinted(out, line, out', rest, children, expanded, expanded');
    NodeMarked(children, edges, universe, open, name, expanded, expanded');
    CountsAppend([line], rest, "", "");
    LayoutNode(line, rest, children, states, expanded, expanded');
    lines := [line] + rest;
  }

  /** Print all children of a node that has just been marked. */
  method WriteKids(out: string, name: string, prefix: string, children: Children, states: map<string, ServiceState>,
                   expanded: set<string>, ghost edges: set<Edge>, ghost universe: set<string>, ghost open: set<string>)
    returns (out': string, expanded': set<string>, ghost lines: seq<Line>)
    requires Graph(children, edges, universe)
    requires name in expanded && expanded <= universe
    requires open <= expanded && ClosedExcept(children, expanded, open + {name})
    ensures Marked(children, edges, universe, open, name, expanded, expanded')
    ensures Printed(out, out', lines, children, expanded, expanded', EdgesTo(name, Kids(children, name)))
    ensures RootNames(lines) == []
    ensures Layout(lines, children, states, Place(expanded, Some(name), prefix), expanded')
    decreases universe - expanded, 1
  {
    var kids := Kids(children, name);
    out', expanded', lines := out, expanded, [];
    for i := 0 to |kids|
      invariant KidsWritten(children, edges, universe, open, name, i, out, out', lines, expanded, expanded')
      invariant KidsDrawn(children, states, name, prefix, i, lines, expanded, expanded')
    {
      ghost var out0, before := out', expanded';
      ghost var more: seq<Line>;
      out', expanded', more := WriteTreeNode(out', kids[i], Some(name), prefix, i + 1 == |kids|, children, states,
                                             expanded', edges, universe, open + {name});
      KidWritten(children, edges, universe, open, name, i, out, out0, out', lines, more, expanded, before, expanded');
      KidDrawn(children, states, name, prefix, i, lines, more, expanded, before, expanded');
      lines := lines + more;
    }
    AllWritten(children, edges, universe, open, name, out, out', lines, expanded, expanded');
  }

  /** The lines drawn for the first `i` children. */
  ghost predicate KidsDrawn(children: Children, states: map<string, ServiceState>, name: string, prefix: string, i: nat,
                            lines: seq<Line>, expanded: set<string>, after: set<string>)
  {
    && i <= |Kids(children, name)| && ShowsFirst(lines, name, Kids(children, name), i)
    && Layout(lines, children, states, Place(expanded, Some(name), prefix), after)
  }

  lemma KidDrawn(children: Children, states: map<string, ServiceState>, name: string, prefix: string, i: nat,
                 lines: seq<Line>, more: seq<Line>, expanded: set<string>, before: set<string>, after: set<string>)
    requires i < |Kids(children, name)| && Ascending(Kids(children, name)) && Distinct(Kids(children, name))
    requires KidsDrawn(children, states, name, prefix, i, lines, expanded, before)
    requires Layout(more, children, states, Place(before, Some(name), prefix), after)
    requires Heads(more, Some(name), Kids(children, name)[i])
    ensures KidsDrawn(children, states, name, prefix, i + 1, lines + more, expanded, after)
  {
    LayoutKid(lines, more, children, states, name, prefix, i, expanded, before, after);
  }

  lemma AllWritten(children: Children, edges: set<Edge>, universe: set<string>, open: set<string>, name: string,
                   out: string, out': string, lines: seq<Line>, expanded: set<string>, after: set<string>)
    requires KidsWritten(children, edges, universe, open, name, |Kids(children, name)|, out, out', lines, expanded, after)
    requires name in expanded
    ensures Marked(children, edges, universe, open, name, expanded, after)
    ensures Printed(out, out', lines, children, expanded, after, EdgesTo(name, Kids(children, name)))
  {
    assert Kids(children, name)[..|Kids(children, name)|] == Kids(children, name);
  }

  /** The first `i` children of a node have been printed. */
  ghost predicate KidsWritten(children: Children, edges: set<Edge>, universe: set<string>, open: set<string>, name: string,
                              i: nat, out: string, out': string, lines: seq<Line>, expanded: set<string>, after: set<string>)
  {
    && i <= |Kids(children, name)|
    && Marked(children, edges, universe, open + {name}, name, expanded, after)
    && (forall k :: 0 <= k < i ==> Kids(children, name)[k] in after)
    && Printed(out, out', lines, children, expanded, after, EdgesTo(name, Kids(children, name)[..i]))
    && RootNames(lines) == []
  }

  lemma KidWritten(children: Children, edges: set<Edge>, universe: set<string>, open: set<string>, name: string, i: nat,
                   out: string, out1: string, out2: string, lines: seq<Line>, more: seq<Line>,
                   expanded: set<string>, before: set<string>, after: set<string>)
    requires Graph(children, edges, universe) && i < |Kids(children, name)|
    requires KidsWritten(children, edges, universe, open, name, i, out, out1, lines, expanded, before)
    requires Kids(children, name)[i] in after
    requires Marked(children, edges, universe, open + {name}, Kids(children, name)[i], before, after)
    requires Printed(out1, out2, more, children, before, after, EdgeTo(Some(name), Kids(children, name)[i]))
    requires RootNames(more) == []
    ensures KidsWritten(children, edges, universe, open, name, i + 1, out, out2, lines + more, expanded, after)
  {
    var kid := Kids(children, name)[i];
    assert kid in Kids(children, name);
    KidPrinted(out, out1, out2, lines, more, children, expanded, before, after, name, i);
    KidMarked(children, edges, universe, open + {name}, name, kid, expanded, before, after);
    CountsAppend(lines, more, "", "");
  }

  lemma KidPrinted(out: string, out1: string, out2: string, lines: seq<Line>, more: seq<Line>, children: Children,
                   expanded: set<string>, before: set<string>, after: set<string>, name: string, i: nat)
    requires i < |Kids(children, name)| && Distinct(Kids(children, name))
    requires expanded <= before <= after
    requires Printed(out, out1, lines, children, expanded, before, EdgesTo(name, Kids(children, name)[..i]))
    requires Printed(out1, out2, more, children, before, after, EdgeTo(Some(name), Kids(children, name)[i]))
    ensures Printed(out, out2, lines + more, children, expanded, after, EdgesTo(name, Kids(children, name)[..i + 1]))
  {
    RenderAppend(lines, more);
    KidShown(lines, more, children, expanded, before, after, name, Kids(children, name), i);
  }

  lemma KidMarked(children: Children, edges: set<Edge>, universe: set<string>, open: set<string>, name: string,
                  kid: string, expanded: set<string>, before: set<string>, after: set<string>)
    requires (name, kid) in edges
    requires Marked(children, edges, universe, open, name, expanded, before)
    requires Marked(children, edges, universe, open, kid, before, after)
    ensures Marked(children, edges, universe, open, name, expanded, after)
  {
    KidReached(edges, name, kid, after - before);
  }

  lemma KidShown(lines: seq<Line>, more: seq<Line>, children: Children, expanded: set<string>, before: set<string>,
                 after: set<string>, name: string, kids: seq<string>, i: nat)
    requires i < |kids| && Distinct(kids)
    requires expanded <= before <= after
    requires Shows(lines, children, before - expanded, EdgesTo(name, kids[..i]))
    requires Shows(more, children, after - before, EdgeTo(Some(name), kids[i]))
    ensures Shows(lines + more, children, after - expanded, EdgesTo(name, kids[..i + 1]))
  {
    ShowsAppend(lines, more, children, before - expanded, after - before, EdgesTo(name, kids[..i]), EdgeTo(Some(name), kids[i]));
    assert (before - expanded) + (after - before) == after - expanded;
    assert kids[..i + 1] == kids[..i] + [kids[i]];
    assert EdgesTo(name, kids[..i]) + EdgeTo(Some(name), kids[i]) == EdgesTo(name, kids[..i + 1]);
  }

  lemma KidReached(edges: set<Edge>, name: string, kid: string, nodes: set<string>)
    requires (name, kid) in edges && ReachedFrom(edges, kid, nodes)
    ensures ReachedFrom(edges, name, nodes)
  {
    forall x | x in nodes
      ensures Reaches(edges, name, x)
    {
      var p :| PathBetween(edges, p, kid, x);
      assert PathBetween(edges, [name] + p, name, x);
    }
  }

  // ----- the whole graph -----

  function NodeNames(nodes: seq<DepNode>): (r: seq<string>)
    ensures |r| == |nodes|
    ensures forall i :: 0 <= i < |r| ==> r[i] == nodes[i].name
  {
    seq(|nodes|, i requires 0 <= i < |nodes| => nodes[i].name)
  }

  ghost predicate HasParent(edges: seq<Edge>, n: string) {
    exists p :: (p, n) in edges
  }

  /** The nodes without a parent, in order; in a graph that has none, the least name. */
  ghost predicate ChosenRoots(nodes: seq<DepNode>, edges: seq<Edge>, roots: seq<string>) {
    var names := NodeNames(nodes);
    if exists n :: n in names && !HasParent(edges, n) then
      Ascending(roots) && forall n :: n in roots <==> n in names && !HasParent(edges, n)
    else if names == [] then
      roots == []
    else
      |roots| == 1 && roots[0] in names && forall n :: n in names ==> !NameLess(n, roots[0])
  }

  function EdgeSet(edges: seq<Edge>): set<Edge> {
    set e | e in edges
  }

  /** Reachable from one of the roots. */
  ghost predicate UnderRoots(edges: set<Edge>, roots: seq<string>, x: string) {
    exists r :: r in roots && Reaches(edges, r, x)
  }

  ghost predicate AllUnderRoots(edges: set<Edge>, roots: seq<string>, nodes: set<string>) {
    forall x :: x in nodes ==> UnderRoots(edges, roots, x)
  }

  /** Select the nodes that have no parent. */
  function Parentless(names: seq<string>, hasParent: set<string>): (r: seq<string>)
    ensures forall n :: n in r <==> n in names && n !in hasParent
    decreases |names|
  {
    if names == [] then []
    else
      var k := |names| - 1;
      assert names == names[..k] + [names[k]];
      Parentless(names[..k], hasParent) + if names[k] in hasParent then [] else [names[k]]
  }

  method ChooseRoots(nodes: seq<DepNode>, edges: seq<Edge>, hasParent: set<string>) returns (roots: seq<string>)
    requires forall c :: c in hasParent <==> HasParent(edges, c)
    ensures ChosenRoots(nodes, edges, roots)
    ensures forall n :: n in roots ==> n in NodeNames(nodes)
  {
    var names := NodeNames(nodes);
    var free := Parentless(names, hasParent);
    roots := Sort(free);
    SortAscending(free);
    if roots == [] {
      assert forall n :: n in names ==> n !in free;
      roots := Sort(names);
      SortAscending(names);
      if roots != [] {
        var all := roots;
        roots := [all[0]];
        forall n | n in names
          ensures !NameLess(n, roots[0])
        {
          assert n in all;
          var k :| 0 <= k < |all| && all[k] == n;
          NameTotal(n, n);
        }
      }
    } else {
      assert roots[0] in free;
    }
  }

  /** The state of each node, by name. */
  ghost predicate StatesAre(nodes: seq<DepNode>, states: map<string, ServiceState>) {
    && (forall n :: n in states <==> n in NodeNames(nodes))
    && (Distinct(NodeNames(nodes)) ==>
          forall i :: 0 <= i < |nodes| ==> nodes[i].name in states && states[nodes[i].name] == nodes[i].state)
  }

  method StatesOf(nodes: seq<DepNode>) returns (states: map<string, ServiceState>)
    ensures StatesAre(nodes, states)
  {
    states := map[];
    for i := 0 to |nodes|
      invariant forall n :: n in states <==> n in NodeNames(nodes)[..i]
      invariant Distinct(NodeNames(nodes)) ==> forall k :: 0 <= k < i ==> states[NodeNames(nodes)[k]] == nodes[k].state
    {
      assert NodeNames(nodes)[..i + 1] == NodeNames(nodes)[..i] + [nodes[i].name];
      states := states[nodes[i].name := nodes[i].state];
    }
    assert NodeNames(nodes)[..|nodes|] == NodeNames(nodes);
  }

  /** What the rendering of a non-empty graph shows. */
  ghost predicate TreeOf(nodes: seq<DepNode>, edges: seq<Edge>, roots: seq<string>, expanded: set<string>, lines: seq<Line>) {
    && ChosenRoots(nodes, edges, roots)
    && RootNames(lines) == roots
    && (forall x :: x in expanded <==> UnderRoots(EdgeSet(edges), roots, x))
    && (forall x :: FirstShowings(lines, x) == if x in expanded then 1 else 0)
    && (forall p, c :: EdgeLines(lines, p, c) == if p in expanded && (p, c) in edges then 1 else 0)
  }

  /** The rendering terminates on every graph, cyclic or not: it prints one line per root, one line
      per distinct edge leaving a node reachable from the roots, and shows each such node in full once;
      every line is laid out correctly. */
  method FormatDepGraph(nodes: seq<DepNode>, edges: seq<Edge>)
    returns (out: string, ghost roots: seq<string>, ghost expanded: set<string>, ghost lines: seq<Line>,
             ghost kids: Children, ghost shown: map<string, ServiceState>)
    ensures edges == [] ==> out == "  (none)\n"
    ensures edges != [] ==> out == RenderAll(lines) && TreeOf(nodes, edges, roots, expanded, lines)
    ensures edges != [] ==>
              && ChildrenOf(edges, kids) && StatesAre(nodes, shown)
              && Layout(lines, kids, shown, Place({}, None, ""), expanded)
  {
    if edges == [] {
      return "  (none)\n", [], {}, [], map[], map[];
    }
    var states := StatesOf(nodes);
    var children, hasParent := CollectChildren(edges);
    children := SortChildren(edges, children);
    kids, shown := children, states;
    var chosen := ChooseRoots(nodes, edges, hasParent);
    roots := chosen;
    ghost var universe := (set n | n in NodeNames(nodes)) + (set e | e in edges :: e.1);
    var marked: set<string>;
    out, marked, lines := WriteRoots(chosen, children, states, EdgeSet(edges), universe);
    expanded := marked;
    TreeIsComplete(nodes, edges, children, roots, out, expanded, lines);
  }

  /** The first `i` roots have been printed. */
  ghost predicate RootsPrinted(out: string, lines: seq<Line>, children: Children, edges: set<Edge>,
                               roots: seq<string>, i: nat, expanded: set<string>)
    requires i <= |roots|
  {
    && Printed("", out, lines, children, {}, expanded, {})
    && RootNames(lines) == roots[..i]
    && ClosedExcept(children, expanded, {})
    && (forall k :: 0 <= k < i ==> roots[k] in expanded)
    && AllUnderRoots(edges, roots, expanded)
  }

  lemma NextRoot(out1: string, out2: string, lines: seq<Line>, more: seq<Line>, children: Children, edges: set<Edge>,
                 universe: set<string>, roots: seq<string>, i: nat, before: set<string>, after: set<string>)
    requires i < |roots| && RootsPrinted(out1, lines, children, edges, roots, i, before)
    requires roots[i] in after && Marked(children, edges, universe, {}, roots[i], before, after)
    requires Printed(out1, out2, more, children, before, after, EdgeTo(None, roots[i]))
    requires RootNames(more) == [roots[i]]
    ensures RootsPrinted(out2, lines + more, children, edges, roots, i + 1, after)
  {
    RootPrinted(out1, out2, lines, more, children, before, after, roots[i]);
    RootReached(edges, roots, i, before, after);
    CountsAppend(lines, more, "", "");
    assert roots[..i + 1] == roots[..i] + [roots[i]];
  }

  method WriteRoots(roots: seq<string>, children: Children, states: map<string, ServiceState>,
                    ghost edges: set<Edge>, ghost universe: set<string>)
    returns (out: string, expanded: set<string>, ghost lines: seq<Line>)
    requires Graph(children, edges, universe) && forall r :: r in roots ==> r in universe
    ensures RootsPrinted(out, lines, children, edges, roots, |roots|, expanded)
    ensures Layout(lines, children, states, Place({}, None, ""), expanded)
  {
    out, expanded, lines := "", {}, [];
    for i := 0 to |roots|
      invariant expanded <= universe
      invariant RootsPrinted(out, lines, children, edges, roots, i, expanded)
      invariant Layout(lines, children, states, Place({}, None, ""), expanded)
    {
      ghost var out0, before := out, expanded;
      ghost var more: seq<Line>;
      assert roots[i] in roots;
      out, expanded, more := WriteTreeNode(out, roots[i], None, "", true, children, states, expanded, edges, universe, {});
      NextRoot(out0, out, lines, more, children, edges, universe, roots, i, before, expanded);
      LayoutRoot(lines, more, children, states, before, expanded);
      lines := lines + more;
    }
  }

  lemma RootReached(edges: set<Edge>, roots: seq<string>, i: nat, before: set<string>, after: set<string>)
    requires i < |roots| && AllUnderRoots(edges, roots, before) && ReachedFrom(edges, roots[i], after - before)
    ensures AllUnderRoots(edges, roots, after)
  {
    forall x | x in after
      ensures UnderRoots(edges, roots, x)
    {
      if x !in before {
        assert roots[i] in roots && Reaches(edges, roots[i], x);
      }
    }
  }

  lemma RootPrinted(out1: string, out2: string, lines: seq<Line>, more: seq<Line>, children: Children,
                    before: set<string>, after: set<string>, root: string)
    requires before <= after
    requires Printed("", out1, lines, children, {}, before, {})
    requires Printed(out1, out2, more, children, before, after, EdgeTo(None, root))
    ensures Printed("", out2, lines + more, children, {}, after, {})
  {
    RenderAppend(lines, more);
    ShowsAppend(lines, more, children, before - {}, after - before, {}, {});
    assert (before - {}) + (after - before) == after - {};
    var none: set<Edge> := {};
    assert none + none == none;
  }

  lemma RootsReach(edges: seq<Edge>, children: Children, roots: seq<string>, expanded: set<string>)
    requires ChildrenOf(edges, children)
    requires ClosedExcept(children, expanded, {})
    requires forall k :: 0 <= k < |roots| ==> roots[k] in expanded
    requires AllUnderRoots(EdgeSet(edges), roots, expanded)
    ensures forall x :: x in expanded <==> UnderRoots(EdgeSet(edges), roots, x)
  {
    forall x | UnderRoots(EdgeSet(edges), roots, x)
      ensures x in expanded
    {
      var r :| r in roots && Reaches(EdgeSet(edges), r, x);
      var p :| PathBetween(EdgeSet(edges), p, r, x);
      forall a, b | a in expanded && (a, b) in EdgeSet(edges)
        ensures b in expanded
      {
        assert b in Kids(children, a);
      }
      ClosedContainsReachable(EdgeSet(edges), expanded, p);
    }
  }

  lemma TreeIsComplete(nodes: seq<DepNode>, edges: seq<Edge>, children: Children, roots: seq<string>, out: string,
                       expanded: set<string>, lines: seq<Line>)
    requires ChildrenOf(edges, children) && ChosenRoots(nodes, edges, roots)
    requires RootsPrinted(out, lines, children, EdgeSet(edges), roots, |roots|, expanded)
    ensures out == RenderAll(lines) && TreeOf(nodes, edges, roots, expanded, lines)
  {
    RootsReach(edges, children, roots, expanded);
    assert expanded - {} == expanded;
    assert roots[..|roots|] == roots;
  }

  // ----- acyclic graphs -----

  function Flipped(edges: set<Edge>): set<Edge> {
    set e | e in edges :: (e.1, e.0)
  }

  lemma {:induction false} FlipPath(edges: set<Edge>, p: seq<string>) returns (q: seq<string>)
    requires IsPath(Flipped(edges), p)
    ensures PathBetween(edges, q, p[|p| - 1], p[0]) && |q| == |p|
    decreases |p|
  {
    if |p| == 1 {
      q := p;
    } else {
      assert (p[0], p[1]) in Flipped(edges);
      var r := FlipPath(edges, p[1..]);
      q := r + [p[0]];
      assert (p[1], p[0]) in edges;
    }
  }

  /** Without cycles, every node hangs under a root. */
  lemma AcyclicIsUnderRoots(nodes: seq<DepNode>, edges: seq<Edge>, roots: seq<string>, n: string)
    requires Acyclic(EdgeSet(edges)) && ChosenRoots(nodes, edges, roots) && n in NodeNames(nodes)
    requires forall e :: e in edges ==> e.0 in NodeNames(nodes)
    ensures UnderRoots(EdgeSet(edges), roots, n)
  {
    var all := EdgeSet(edges);
    var stuck := set x | x in NodeNames(nodes) && !exists r :: r in NodeNames(nodes) && !HasParent(edges, r) && Reaches(all, r, x);
    forall x | x in stuck
      ensures HasNext(Flipped(all), stuck, x)
    {
      ReachesSelf(all, x);
      var p :| (p, x) in edges;
      if exists r :: r in NodeNames(nodes) && !HasParent(edges, r) && Reaches(all, r, p) {
        var r :| r in NodeNames(nodes) && !HasParent(edges, r) && Reaches(all, r, p);
        ReachesStep(all, r, p, x);
      }
      assert p in stuck && (x, p) in Flipped(all);
    }
    if n in stuck {
      StuckLeadsToCycle(Flipped(all), stuck, n);
      var p, c :| IsCycle(Flipped(all), c) && PathBetween(Flipped(all), p, n, c[0]);
      var q := FlipPath(all, c);
      assert IsCycle(all, q);
      assert false;
    }
  }

  /** On an acyclic graph every node is shown in full exactly once and every edge is printed exactly once. */
  lemma AcyclicTreeIsComplete(nodes: seq<DepNode>, edges: seq<Edge>, roots: seq<string>, expanded: set<string>, lines: seq<Line>)
    requires TreeOf(nodes, edges, roots, expanded, lines) && Acyclic(EdgeSet(edges))
    requires forall e :: e in edges ==> e.0 in NodeNames(nodes)
    ensures forall n :: n in NodeNames(nodes) ==> FirstShowings(lines, n) == 1
    ensures forall e :: e in edges ==> EdgeLines(lines, e.0, e.1) == 1
  {
    forall n | n in NodeNames(nodes)
      ensures n in expanded
    {
      AcyclicIsUnderRoots(nodes, edges, roots, n);
    }
  }
}
