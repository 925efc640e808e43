/** The lines of a dependency tree and what it means for them to be drawn correctly. */
module TreeLines {
  import opened Basics
  import opened Service
  import opened StartOrder

  predicate Ascending(s: seq<string>) {
    forall i, j :: 0 <= i < j < |s| ==> !NameLess(s[j], s[i])
  }

  type Children = map<string, seq<string>>

  function Kids(children: Children, p: string): seq<string> {
    if p in children then children[p] else []
  }

  /** One printed line; a root has no parent. */
  datatype Line = Line(parent: Option<string>, name: string, prefix: string, isLast: bool, state: string, already: bool)

  function Display(s: ServiceState): string {
    match s
    case Pending => "pending"
    case Starting => "starting"
    case Running => "running"
    case Succeeded => "succeeded"
    case Failed => "failed"
    case Stopping => "stopping"
    case Stopped => "stopped"
    case Restarting => "restarting"
    case Disabled => "disabled"
    case WaitingForDependency => "waiting_for_dependency"
  }

  function StateText(states: map<string, ServiceState>, name: string): string {
    if name in states then Display(states[name]) else "?"
  }

  function Render(l: Line): string {
    (if l.parent.None? then "  " else l.prefix + (if l.isLast then "└─> " else "├─> "))
    + l.name + " (" + l.state + ")" + (if l.already then " [already shown]" else "") + "\n"
  }

  /** What stands in front of the children of a line. */
  function ChildPrefix(l: Line): string {
    if l.parent.None? then "  " else if l.isLast then l.prefix + "    " else l.prefix + "│   "
  }

  /** No two states look alike. */
  lemma DisplayTellsApart(a: ServiceState, b: ServiceState)
    ensures Display(a) == Display(b) ==> a == b
  {
    assert |"pending"| == 7 && |"running"| == 7 && |"stopped"| == 7 && |"starting"| == 8 && |"stopping"| == 8 && |"disabled"| == 8;
    assert "pending"[0] == 'p' && "running"[0] == 'r' && "stopped"[0] == 's';
    assert "starting"[2] == 'a' && "stopping"[2] == 'o' && "disabled"[2] == 's';
    assert "succeeded"[0] == 's' && |"succeeded"| == 9 && |"failed"| == 6 && |"restarting"| == 10;
    assert |"waiting_for_dependency"| == 22;
  }

  /** A root stands two columns in; any other line continues its prefix with a branch, the last child with a corner;
      a repeat says so. */
  lemma RenderMeaning(parent: Option<string>, name: string, prefix: string, state: string)
    ensures parent.None? ==>
              Render(Line(parent, name, prefix, true, state, false)) == "  " + name + " (" + state + ")\n"
    ensures parent.Some? ==>
              && Render(Line(parent, name, prefix, false, state, false)) == prefix + "├─> " + name + " (" + state + ")\n"
              && Render(Line(parent, name, prefix, true, state, false)) == prefix + "└─> " + name + " (" + state + ")\n"
              && Render(Line(parent, name, prefix, true, state, true)) == prefix + "└─> " + name + " (" + state + ") [already shown]\n"
    ensures parent.Some? ==>
              && ChildPrefix(Line(parent, name, prefix, false, state, false)) == prefix + "│   "
              && ChildPrefix(Line(parent, name, prefix, true, state, false)) == prefix + "    "
    ensures ChildPrefix(Line(None, name, prefix, true, state, false)) == "  "
    ensures StateText(map[], name) == "?"
  {
    assert ")" + "" + "\n" == ")\n";
    var text := name + " (" + state;
    assert text + ")" + "" + "\n" == text + ")\n";
    assert text + ")" + " [already shown]" + "\n" == text + ") [already shown]\n";
  }

  // ----- a correctly drawn stretch of lines -----

  ghost predicate Appears(lines: seq<Line>, k: nat, x: string)
    requires k <= |lines|
  {
    exists j :: 0 <= j < k && lines[j].name == x
  }

  /** Line `i` hangs below an earlier line that shows its parent in full. */
  ghost predicate Hangs(lines: seq<Line>, i: nat)
    requires i < |lines|
  {
    exists j :: && 0 <= j < i && !lines[j].already
                && lines[i].parent == Some(lines[j].name) && lines[i].prefix == ChildPrefix(lines[j])
  }

  /** Where a stretch stands: the nodes shown before it, and the line above it. */
  datatype Place = Place(before: set<string>, top: Option<string>, prefix: string)

  ghost predicate LineOk(lines: seq<Line>, i: nat, children: Children, states: map<string, ServiceState>, at: Place)
    requires i < |lines|
  {
    var l := lines[i];
    && l.state == StateText(states, l.name)
    && (l.already <==> l.name in at.before || Appears(lines, i, l.name))
    && (l.parent.Some? ==>
          var kids := Kids(children, l.parent.value);
          && l.name in kids && (l.isLast <==> l.name == kids[|kids| - 1])
          && ((l.parent == at.top && l.prefix == at.prefix) || Hangs(lines, i)))
  }

  /** Siblings are listed in ascending order. */
  ghost predicate SiblingsAscend(lines: seq<Line>) {
    forall i, j :: 0 <= i < j < |lines| && lines[i].parent.Some? && lines[i].parent == lines[j].parent ==>
      NameLess(lines[i].name, lines[j].name)
  }

  /** Every line is right, exactly the nodes of `after` have been shown, and every line stands below
      the top or below a node first shown here. */
  ghost predicate Layout(lines: seq<Line>, children: Children, states: map<string, ServiceState>, at: Place, after: set<string>) {
    && (forall i :: 0 <= i < |lines| ==> LineOk(lines, i, children, states, at))
    && (forall x :: x in after <==> x in at.before || Appears(lines, |lines|, x))
    && (forall i :: 0 <= i < |lines| ==> Inside(lines[i], at, after))
    && SiblingsAscend(lines)
  }

  ghost predicate Inside(l: Line, at: Place, after: set<string>) {
    l.parent == at.top || (l.parent.Some? && l.parent.value in after && l.parent.value !in at.before)
  }

  lemma AppearsShift(a: seq<Line>, b: seq<Line>, i: nat, x: string)
    requires i <= |b|
    ensures Appears(a + b, |a| + i, x) <==> Appears(a, |a|, x) || Appears(b, i, x)
  {
    var all := a + b;
    if Appears(a, |a|, x) {
      var j :| 0 <= j < |a| && a[j].name == x;
      assert all[j].name == x;
    } else if Appears(b, i, x) {
      var j :| 0 <= j < i && b[j].name == x;
      assert all[|a| + j].name == x;
    }
  }

  lemma HangsShift(a: seq<Line>, b: seq<Line>, i: nat)
    requires i < |b| && Hangs(b, i)
    ensures Hangs(a + b, |a| + i)
  {
    var j :| && 0 <= j < i && !b[j].already && b[i].parent == Some(b[j].name) && b[i].prefix == ChildPrefix(b[j]);
    assert (a + b)[|a| + j] == b[j];
  }

  /** A line keeps its place when lines are put in front of it, provided what it hung from is there. */
  lemma LaterLineOk(a: seq<Line>, b: seq<Line>, i: nat, children: Children, states: map<string, ServiceState>,
                    at: Place, inner: Place)
    requires i < |b| && LineOk(b, i, children, states, inner)
    requires forall x :: x in inner.before <==> x in at.before || Appears(a, |a|, x)
    requires b[i].parent.Some? && b[i].parent == inner.top && b[i].prefix == inner.prefix ==>
               (inner.top == at.top && inner.prefix == at.prefix) || Hangs(a + b, |a| + i)
    ensures LineOk(a + b, |a| + i, children, states, at)
  {
    assert (a + b)[|a| + i] == b[i];
    AppearsShift(a, b, i, b[i].name);
    if Hangs(b, i) {
      HangsShift(a, b, i);
    }
  }

  lemma NodeLineOk(l: Line, rest: seq<Line>, i: nat, children: Children, states: map<string, ServiceState>, before: set<string>)
    requires !l.already && i < |rest|
    requires LineOk(rest, i, children, states, Place(before + {l.name}, Some(l.name), ChildPrefix(l)))
    ensures LineOk([l] + rest, i + 1, children, states, Place(before, l.parent, l.prefix))
  {
    assert ([l] + rest)[0] == l && [l][0] == l;
    LaterLineOk([l], rest, i, children, states, Place(before, l.parent, l.prefix),
                Place(before + {l.name}, Some(l.name), ChildPrefix(l)));
  }

  lemma NodeAppears(l: Line, rest: seq<Line>, x: string)
    ensures Appears([l] + rest, |[l] + rest|, x) <==> x == l.name || Appears(rest, |rest|, x)
  {
    AppearsShift([l], rest, |rest|, x);
    assert [l][0] == l;
  }

  /** A node shown in full, and its children below it. */
  lemma LayoutNode(l: Line, rest: seq<Line>, children: Children, states: map<string, ServiceState>,
                   before: set<string>, after: set<string>)
    requires !l.already && l.name !in before && l.state == StateText(states, l.name)
    requires l.parent.Some? ==>
               var kids := Kids(children, l.parent.value);
               l.name in kids && (l.isLast <==> l.name == kids[|kids| - 1])
    requires l.parent.Some? ==> l.parent.value in before
    requires Layout(rest, children, states, Place(before + {l.name}, Some(l.name), ChildPrefix(l)), after)
    ensures Layout([l] + rest, children, states, Place(before, l.parent, l.prefix), after)
    ensures forall j :: 0 <= j < |rest| ==> rest[j].parent.Some? && rest[j].parent != l.parent
  {
    var all := [l] + rest;
    var at, inner := Place(before, l.parent, l.prefix), Place(before + {l.name}, Some(l.name), ChildPrefix(l));
    forall j | 0 <= j < |rest|
      ensures rest[j].parent.Some? && rest[j].parent != l.parent
    {
      assert Inside(rest[j], inner, after);
    }
    forall i | 0 <= i < |all|
      ensures LineOk(all, i, children, states, at) && Inside(all[i], at, after)
    {
      if i > 0 {
        assert LineOk(rest, i - 1, children, states, inner) && Inside(rest[i - 1], inner, after);
        NodeLineOk(l, rest, i - 1, children, states, before);
      }
    }
    forall x
      ensures x in after <==> x in before || Appears(all, |all|, x)
    {
      NodeAppears(l, rest, x);
    }
  }

  lemma AppearsPrefix(a: seq<Line>, b: seq<Line>, i: nat, x: string)
    requires i <= |a|
    ensures Appears(a + b, i, x) <==> Appears(a, i, x)
  {
    if Appears(a, i, x) {
      var j :| 0 <= j < i && a[j].name == x;
      assert (a + b)[j].name == x;
    }
  }

  lemma HangsPrefix(a: seq<Line>, b: seq<Line>, i: nat)
    requires i < |a| && Hangs(a, i)
    ensures Hangs(a + b, i)
  {
    var j :| && 0 <= j < i && !a[j].already && a[i].parent == Some(a[j].name) && a[i].prefix == ChildPrefix(a[j]);
    assert (a + b)[j] == a[j];
  }

  lemma EarlierLineOk(a: seq<Line>, b: seq<Line>, i: nat, children: Children, states: map<string, ServiceState>, at: Place)
    requires i < |a| && LineOk(a, i, children, states, at)
    ensures LineOk(a + b, i, children, states, at)
  {
    assert (a + b)[i] == a[i];
    AppearsPrefix(a, b, i, a[i].name);
    if Hangs(a, i) {
      HangsPrefix(a, b, i);
    }
  }

  /** Two stretches below the same line, siblings across them in order. */
  lemma LayoutAppend(a: seq<Line>, b: seq<Line>, children: Children, states: map<string, ServiceState>,
                     at: Place, mid: set<string>, after: set<string>)
    requires Layout(a, children, states, at, mid)
    requires Layout(b, children, states, at.(before := mid), after)
    requires forall i, j :: 0 <= i < |a| && 0 <= j < |b| && a[i].parent.Some? && a[i].parent == b[j].parent ==>
               NameLess(a[i].name, b[j].name)
    ensures Layout(a + b, children, states, at, after)
  {
    var all := a + b;
    forall i | 0 <= i < |all|
      ensures LineOk(all, i, children, states, at) && Inside(all[i], at, after)
    {
      if i < |a| {
        EarlierLineOk(a, b, i, children, states, at);
        assert Inside(a[i], at, mid);
      } else {
        LaterLineOk(a, b, i - |a|, children, states, at, at.(before := mid));
        assert Inside(b[i - |a|], at.(before := mid), after);
      }
    }
    forall x
      ensures x in after <==> x in at.before || Appears(all, |all|, x)
    {
      AppearsShift(a, b, |b|, x);
    }
  }

  // ----- the children of one node, one after the other -----

  /** The stretch starts with the line of `name` below `parent`, and only that line stands there. */
  ghost predicate Heads(lines: seq<Line>, parent: Option<string>, name: string) {
    && lines != [] && lines[0].name == name && lines[0].parent == parent
    && forall j :: 0 < j < |lines| ==> lines[j].parent.Some? && lines[j].parent != parent
  }

  /** The lines directly below `name` show only its first `i` children. */
  ghost predicate ShowsFirst(lines: seq<Line>, name: string, kids: seq<string>, i: nat)
    requires i <= |kids|
  {
    forall j :: 0 <= j < |lines| && lines[j].parent == Some(name) ==> lines[j].name in kids[..i]
  }

  /** One more child below `name`. */
  lemma LayoutKid(a: seq<Line>, b: seq<Line>, children: Children, states: map<string, ServiceState>, name: string,
                  prefix: string, i: nat, before: set<string>, mid: set<string>, after: set<string>)
    requires i < |Kids(children, name)| && Ascending(Kids(children, name)) && Distinct(Kids(children, name))
    requires Layout(a, children, states, Place(before, Some(name), prefix), mid)
    requires ShowsFirst(a, name, Kids(children, name), i)
    requires Layout(b, children, states, Place(mid, Some(name), prefix), after)
    requires Heads(b, Some(name), Kids(children, name)[i])
    ensures Layout(a + b, children, states, Place(before, Some(name), prefix), after)
    ensures ShowsFirst(a + b, name, Kids(children, name), i + 1)
  {
    var kids := Kids(children, name);
    var at := Place(before, Some(name), prefix);
    forall k, j | 0 <= k < |a| && 0 <= j < |b| && a[k].parent.Some? && a[k].parent == b[j].parent
      ensures NameLess(a[k].name, b[j].name)
    {
      assert Inside(a[k], at, mid) && Inside(b[j], at.(before := mid), after);
      assert j == 0;
      var m :| 0 <= m < i && kids[m] == a[k].name;
      NameTotal(kids[m], kids[i]);
    }
    LayoutAppend(a, b, children, states, at, mid, after);
    assert kids[..i + 1] == kids[..i] + [kids[i]];
  }

  /** One more root. */
  lemma LayoutRoot(a: seq<Line>, b: seq<Line>, children: Children, states: map<string, ServiceState>,
                   mid: set<string>, after: set<string>)
    requires Layout(a, children, states, Place({}, None, ""), mid)
    requires Layout(b, children, states, Place(mid, None, ""), after)
    ensures Layout(a + b, children, states, Place({}, None, ""), after)
  {
    var at := Place({}, None, "");
    forall k, j | 0 <= k < |a| && 0 <= j < |b| && a[k].parent.Some?
      ensures a[k].parent != b[j].parent
    {
      assert Inside(a[k], at, mid) && Inside(b[j], at.(before := mid), after);
    }
    LayoutAppend(a, b, children, states, at, mid, after);
  }
}
