/** Which braces enclose a line: two line scanners against the matching of braces. */
module BraceScopes {
  import opened Options

  // ----- Matching braces -----

  function Delta(c: char): int {
    if c == '{' then 1 else if c == '}' then -1 else 0
  }

  /** Braces opened minus braces closed from `p` up to `t`. */
  function Balance(text: string, p: nat, t: nat): int
    requires t <= |text|
    decreases t
  {
    if t <= p then 0 else Balance(text, p, t - 1) + Delta(text[t - 1])
  }

  /** The brace at `p` is still open at `t`. */
  ghost predicate Encloses(text: string, p: nat, t: nat)
    requires t <= |text|
  {
    p < t && text[p] == '{' && forall u: nat :: p < u <= t ==> Balance(text, p, u) >= 1
  }

  /** The positions a full stack holds at `t`: a surplus closing brace pops nothing. */
  function Stack(text: string, t: nat): (s: seq<nat>)
    requires t <= |text|
    ensures forall k :: 0 <= k < |s| ==> s[k] < t
    decreases t
  {
    if t == 0 then [] else
    var s := Stack(text, t - 1);
    if text[t - 1] == '{' then s + [t - 1]
    else if text[t - 1] == '}' && s != [] then s[..|s| - 1]
    else s
  }

  lemma {:induction false} StackShape(text: string, t: nat, k: nat)
    requires t <= |text| && k < |Stack(text, t)|
    ensures var s := Stack(text, t); Encloses(text, s[k], t) && Balance(text, s[k], t) == |s| - k
    ensures forall j :: 0 <= j < k ==> Stack(text, t)[j] < Stack(text, t)[k]
    decreases t
  {
    var s, s0 := Stack(text, t), Stack(text, t - 1);
    if k < |s0| {
      StackShape(text, t - 1, k);
      assert s[k] == s0[k];
      forall u: nat | s[k] < u <= t ensures Balance(text, s[k], u) >= 1 {
        if u < t { assert Balance(text, s[k], u) >= 1; }
      }
    } else {
      assert s[k] == t - 1;
      assert Balance(text, t - 1, t - 1) == 0;
    }
  }

  /** The stack holds exactly the braces still open. */
  lemma {:induction false} StackIsEnclosing(text: string, t: nat, p: nat)
    requires t <= |text|
    ensures p in Stack(text, t) <==> Encloses(text, p, t)
    decreases t
  {
    var s := Stack(text, t);
    if p in s {
      var k :| 0 <= k < |s| && s[k] == p;
      StackShape(text, t, k);
    }
    if Encloses(text, p, t) {
      EnclosingIsHeld(text, t, p);
    }
  }

  lemma {:induction false} EnclosingIsHeld(text: string, t: nat, p: nat)
    requires t <= |text| && Encloses(text, p, t)
    ensures p in Stack(text, t)
    decreases t
  {
    var s, s0 := Stack(text, t), Stack(text, t - 1);
    if p < t - 1 {
      assert Encloses(text, p, t - 1);
      EnclosingIsHeld(text, t - 1, p);
      var k :| 0 <= k < |s0| && s0[k] == p;
      StackShape(text, t - 1, k);
      assert Balance(text, p, t) >= 1;
      assert k < |s| && s[k] == p;
    } else {
      assert s[|s| - 1] == p;
    }
  }

  // ----- Written blocks -----

  /** Text as it is written: characters other than braces, and blocks. */
  datatype Node = Char(c: char) | Block(body: seq<Node>)

  function RenderNode(n: Node): string {
    match n
    case Char(c) => [c]
    case Block(body) => "{" + Render(body) + "}"
  }

  function Render(ns: seq<Node>): string {
    if ns == [] then "" else RenderNode(ns[0]) + Render(ns[1..])
  }

  predicate Proper(ns: seq<Node>) {
    forall i :: 0 <= i < |ns| ==> ProperNode(ns[i])
  }

  predicate ProperNode(n: Node) {
    match n
    case Char(c) => c != '{' && c != '}'
    case Block(body) => Proper(body)
  }

  lemma {:induction false} BalanceSplits(text: string, p: nat, m: nat, t: nat)
    requires p <= m <= t <= |text|
    ensures Balance(text, p, t) == Balance(text, p, m) + Balance(text, m, t)
    decreases t
  {
    if m < t { BalanceSplits(text, p, m, t - 1); }
  }

  /** `text[a..e]` opens as often as it closes, and never closes more than it has opened. */
  ghost predicate Level(text: string, a: nat, e: nat)
    requires a <= e <= |text|
  {
    Balance(text, a, e) == 0 && forall u: nat :: a <= u <= e ==> Balance(text, a, u) >= 0
  }

  lemma LevelJoins(text: string, a: nat, m: nat, e: nat)
    requires a <= m <= e <= |text| && Level(text, a, m) && Level(text, m, e)
    ensures Level(text, a, e)
  {
    hide Balance;
    forall u: nat | m <= u <= e ensures Balance(text, a, u) == Balance(text, m, u) { BalanceSplits(text, a, m, u); }
  }

  /** Inside a block the balance from its brace is positive, and after it zero. */
  lemma LevelWraps(text: string, a: nat, e: nat)
    requires a < e < |text| && text[a] == '{' && text[e] == '}' && Level(text, a + 1, e)
    ensures Level(text, a, e + 1) && forall u: nat :: a < u <= e ==> Balance(text, a, u) >= 1
  {
    assert Balance(text, a, a + 1) == 1 && Balance(text, a, a) == 0;
    forall u: nat | a < u <= e ensures Balance(text, a, u) == 1 + Balance(text, a + 1, u) { BalanceSplits(text, a, a + 1, u); }
  }

  lemma PartsAt(text: string, a: nat, x: string, y: string)
    requires a + |x| + |y| <= |text| && text[a..a + |x| + |y|] == x + y
    ensures text[a..a + |x|] == x && text[a + |x|..a + |x| + |y|] == y
  {
    var z := text[a..a + |x| + |y|];
    assert z[..|x|] == x && z[|x|..] == y;
  }

  lemma {:induction false} RenderedLevel(text: string, a: nat, ns: seq<Node>)
    requires Proper(ns) && a + |Render(ns)| <= |text| && text[a..a + |Render(ns)|] == Render(ns)
    ensures Level(text, a, a + |Render(ns)|)
    decreases ns
  {
    if ns != [] {
      var first, rest := RenderNode(ns[0]), Render(ns[1..]);
      PartsAt(text, a, first, rest);
      NodeLevel(text, a, ns[0]);
      RenderedLevel(text, a + |first|, ns[1..]);
      hide Balance;
      LevelJoins(text, a, a + |first|, a + |first| + |rest|);
    }
  }

  lemma {:induction false} NodeLevel(text: string, a: nat, n: Node)
    requires ProperNode(n) && a + |RenderNode(n)| <= |text| && text[a..a + |RenderNode(n)|] == RenderNode(n)
    ensures Level(text, a, a + |RenderNode(n)|)
    decreases n
  {
    match n
    case Char(c) =>
      assert text[a] == text[a..a + 1][0] == c;
      assert Balance(text, a, a) == 0;
    case Block(body) =>
      var inner := Render(body);
      PartsAt(text, a, "{", inner + "}");
      PartsAt(text, a + 1, inner, "}");
      var e := a + 1 + |inner|;
      assert text[a] == text[a..a + 1][0] && text[e] == text[e..e + 1][0];
      RenderedLevel(text, a + 1, body);
      LevelWraps(text, a, e);
  }

  /** The brace of a written block encloses exactly the positions in the block. */
  lemma BlockEncloses(before: string, body: seq<Node>, after: string, t: nat)
    requires Proper(body) && t <= |before + "{" + Render(body) + "}" + after|
    ensures Encloses(before + "{" + Render(body) + "}" + after, |before|, t) <==> |before| < t <= |before| + 1 + |Render(body)|
  {
    var text, p := before + "{" + Render(body) + "}" + after, |before|;
    var e := p + 1 + |Render(body)|;
    assert text[p + 1..e] == Render(body);
    RenderedLevel(text, p + 1, body);
    LevelWraps(text, p, e);
    assert Balance(text, p, e + 1) == 0;
  }

  // ----- Lines -----

  /** A masked line: its characters, and what the line patterns say about it. */
  datatype Line<L> = Line(text: string, mark: Option<L>)

  function Flat<L>(lines: seq<Line<L>>): string {
    if lines == [] then "" else Flat(lines[..|lines| - 1]) + lines[|lines| - 1].text
  }

  /** Where line `i` starts in the whole text. */
  function Start<L>(lines: seq<Line<L>>, i: nat): nat
    requires i <= |lines|
  {
    |Flat(lines[..i])|
  }

  lemma {:induction false} FlatPrefix<L>(lines: seq<Line<L>>, i: nat)
    requires i <= |lines|
    ensures Flat(lines[..i]) <= Flat(lines)
    decreases |lines|
  {
    if i == |lines| {
      assert lines[..i] == lines;
    } else {
      FlatPrefix(lines[..|lines| - 1], i);
      assert lines[..|lines| - 1][..i] == lines[..i];
    }
  }

  lemma StartNext<L>(lines: seq<Line<L>>, i: nat)
    requires i < |lines|
    ensures Start(lines, i + 1) == Start(lines, i) + |lines[i].text| <= |Flat(lines)|
    ensures Flat(lines)[Start(lines, i)..Start(lines, i + 1)] == lines[i].text
  {
    assert lines[..i + 1][..i] == lines[..i];
    FlatPrefix(lines, i + 1);
    var f := Flat(lines[..i + 1]);
    assert Flat(lines)[Start(lines, i)..Start(lines, i + 1)] == f[Start(lines, i)..];
  }

  lemma {:induction false} StartMonotone<L>(lines: seq<Line<L>>, i: nat, j: nat)
    requires i <= j <= |lines|
    ensures Start(lines, i) <= Start(lines, j) <= |Flat(lines)|
    decreases j - i
  {
    FlatPrefix(lines, j);
    if i < j {
      StartNext(lines, i);
      StartMonotone(lines, i + 1, j);
    }
  }

  predicate NoneOpened(text: string, a: nat, b: nat)
    requires b <= |text|
  {
    forall q :: a <= q < b ==> text[q] != '{'
  }

  // ----- Test scopes -----

  /** The brace at `p` is the first one opened after the start of a marked line. */
  ghost predicate Gated<L>(lines: seq<Line<L>>, p: nat)
    requires p < |Flat(lines)|
  {
    exists i :: 0 <= i < |lines| && Pends(lines, i, p)
  }

  ghost predicate Pends<L>(lines: seq<Line<L>>, i: nat, t: nat)
    requires i < |lines| && t <= |Flat(lines)|
  {
    lines[i].mark.Some? && Start(lines, i) <= t && NoneOpened(Flat(lines), Start(lines, i), t)
  }

  ghost predicate PendingAfter<L>(lines: seq<Line<L>>, n: nat, t: nat)
    requires n <= |lines| && t <= |Flat(lines)|
  {
    exists i :: 0 <= i < n && Pends(lines, i, t)
  }

  /** Position `t` lies in the scope of a gated brace. */
  ghost predicate InTestScope<L>(lines: seq<Line<L>>, t: nat)
    requires t <= |Flat(lines)|
  {
    exists p: nat :: p < t && Gated(lines, p) && Encloses(Flat(lines), p, t)
  }

  /** The depths of the gated braces on a full stack, counted from `base`. */
  ghost function Depths<L>(lines: seq<Line<L>>, s: seq<nat>, base: int): (d: seq<int>)
    requires forall k :: 0 <= k < |s| ==> s[k] < |Flat(lines)|
    ensures forall k :: 0 <= k < |d| ==> d[k] <= base + |s|
    ensures d != [] <==> exists k :: 0 <= k < |s| && Gated(lines, s[k])
  {
    if s == [] then [] else
    var n := |s| - 1;
    Depths(lines, s[..n], base) + (if Gated(lines, s[n]) then [base + |s|] else [])
  }

  lemma DepthsMeanScope<L>(lines: seq<Line<L>>, t: nat, base: int)
    requires t <= |Flat(lines)|
    ensures Depths(lines, Stack(Flat(lines), t), base) != [] <==> InTestScope(lines, t)
  {
    var s := Stack(Flat(lines), t);
    if Depths(lines, s, base) != [] {
      var k :| 0 <= k < |s| && Gated(lines, s[k]);
      StackIsEnclosing(Flat(lines), t, s[k]);
    }
    if InTestScope(lines, t) {
      var p: nat :| p < t && Gated(lines, p) && Encloses(Flat(lines), p, t);
      StackIsEnclosing(Flat(lines), t, p);
    }
  }

  /** While line `j` is scanned, the marks that count are those of lines up to `j`. */
  lemma GatedWithin<L>(lines: seq<Line<L>>, j: nat, p: nat)
    requires j < |lines| && Start(lines, j) <= p < Start(lines, j + 1) && p < |Flat(lines)|
    ensures Gated(lines, p) <==> PendingAfter(lines, j + 1, p)
  {
    forall i: nat | i < |lines| && Pends(lines, i, p) ensures i < j + 1 {
      if i > j { StartMonotone(lines, j + 1, i); }
    }
  }

  lemma PendsStep<L>(lines: seq<Line<L>>, n: nat, t: nat)
    requires n <= |lines| && t < |Flat(lines)|
    requires forall i: nat :: i < n ==> Start(lines, i) <= t
    ensures PendingAfter(lines, n, t + 1) <==> PendingAfter(lines, n, t) && Flat(lines)[t] != '{'
  {
    hide Flat;
    if PendingAfter(lines, n, t + 1) {
      var i: nat :| i < n && Pends(lines, i, t + 1);
      assert Start(lines, i) <= t;
      assert Pends(lines, i, t);
    }
    if PendingAfter(lines, n, t) && Flat(lines)[t] != '{' {
      var i: nat :| i < n && Pends(lines, i, t);
      assert Pends(lines, i, t + 1);
    }
  }

  /** What the scanner's variables say at position `t`, while line `j` is scanned. */
  ghost predicate ScanAt<L>(lines: seq<Line<L>>, n: nat, t: nat, depth: int, entries: seq<int>, pending: bool)
    requires n <= |lines| && t <= |Flat(lines)|
  {
    var s := Stack(Flat(lines), t);
    entries == Depths(lines, s, depth - |s|) && (pending <==> PendingAfter(lines, n, t))
  }

  lemma DepthsPush<L>(lines: seq<Line<L>>, s: seq<nat>, p: nat, base: int)
    requires p < |Flat(lines)| && forall k :: 0 <= k < |s| ==> s[k] < |Flat(lines)|
    ensures Depths(lines, s + [p], base) == Depths(lines, s, base) + (if Gated(lines, p) then [base + |s| + 1] else [])
  {
    assert (s + [p])[..|s|] == s;
  }

  /** The line scanner's inner step on a closing brace: at most one entry is popped. */
  method PopScopes(depth: int, entries: seq<int>) returns (left: seq<int>)
    ensures left <= entries
    ensures left != [] ==> left[|left| - 1] <= depth
    ensures forall k :: |left| <= k < |entries| ==> entries[k] > depth
  {
    left := entries;
    while left != [] && depth < left[|left| - 1]
      invariant left <= entries
      invariant forall k :: |left| <= k < |entries| ==> entries[k] > depth
    {
      left := left[..|left| - 1];
    }
  }

  lemma PopKeeps(entries: seq<int>, goal: seq<int>, left: seq<int>, depth: int)
    requires left <= entries && (left != [] ==> left[|left| - 1] <= depth)
    requires forall k :: |left| <= k < |entries| ==> entries[k] > depth
    requires entries == goal || entries == goal + [depth + 1]
    requires forall k :: 0 <= k < |goal| ==> goal[k] <= depth
    ensures left == goal
  {
    assert forall k :: 0 <= k < |goal| ==> entries[k] == goal[k];
    assert |left| < |entries| ==> entries[|left|] > depth;
    assert left != [] ==> left[|left| - 1] == entries[|left| - 1];
  }

  /** A brace on line `j` is gated exactly when a mark is pending, and using it up. */
  lemma PendingStep<L>(lines: seq<Line<L>>, j: nat, t: nat)
    requires j < |lines| && Start(lines, j) <= t < Start(lines, j + 1) && t < |Flat(lines)|
    ensures Gated(lines, t) <==> PendingAfter(lines, j + 1, t)
    ensures PendingAfter(lines, j + 1, t + 1) <==> PendingAfter(lines, j + 1, t) && Flat(lines)[t] != '{'
  {
    hide Flat, Start;
    GatedWithin(lines, j, t);
    forall i: nat | i < j + 1 ensures Start(lines, i) <= t { StartMonotone(lines, i, j); }
    PendsStep(lines, j + 1, t);
  }

  lemma OpenStep<L>(lines: seq<Line<L>>, n: nat, t: nat, depth: int, entries: seq<int>, pending: bool)
    requires n <= |lines| && t < |Flat(lines)| && Flat(lines)[t] == '{'
    requires Gated(lines, t) <==> PendingAfter(lines, n, t)
    requires !PendingAfter(lines, n, t + 1)
    requires ScanAt(lines, n, t, depth, entries, pending)
    ensures ScanAt(lines, n, t + 1, depth + 1, if pending then entries + [depth + 1] else entries, false)
  {
    var s := Stack(Flat(lines), t);
    assert Stack(Flat(lines), t + 1) == s + [t];
    DepthsPush(lines, s, t, depth - |s|);
    hide Depths, Gated, PendingAfter, Flat, Stack;
    assert depth + 1 - |s + [t]| == depth - |s|;
    assert entries + [] == entries;
  }

  /** A closing brace takes at most the deepest entry, and nothing when none is open. */
  lemma CloseStep<L>(lines: seq<Line<L>>, n: nat, t: nat, depth: int, entries: seq<int>, pending: bool, left: seq<int>)
    requires n <= |lines| && t < |Flat(lines)| && Flat(lines)[t] == '}'
    requires PendingAfter(lines, n, t + 1) <==> PendingAfter(lines, n, t)
    requires ScanAt(lines, n, t, depth, entries, pending)
    requires left <= entries && (left != [] ==> left[|left| - 1] <= depth - 1)
    requires forall k :: |left| <= k < |entries| ==> entries[k] > depth - 1
    ensures ScanAt(lines, n, t + 1, depth - 1, left, pending)
  {
    hide Gated, PendingAfter, Flat;
    var s, s' := Stack(Flat(lines), t), Stack(Flat(lines), t + 1);
    var goal := Depths(lines, s', depth - 1 - |s'|);
    assert entries == goal || entries == goal + [depth];
    PopKeeps(entries, goal, left, depth - 1);
  }

  /** One character: the counter and the sparse stack follow the full stack, even when
      more braces are closed than were opened. */
  method ScanChar<L>(ghost lines: seq<Line<L>>, ghost j: nat, ghost t: nat, c: char, depth: int, entries: seq<int>, pending: bool)
    returns (depth': int, entries': seq<int>, pending': bool)
    requires j < |lines| && Start(lines, j) <= t < Start(lines, j + 1) && t < |Flat(lines)| && Flat(lines)[t] == c
    requires ScanAt(lines, j + 1, t, depth, entries, pending)
    ensures ScanAt(lines, j + 1, t + 1, depth', entries', pending')
  {
    depth', entries', pending' := depth, entries, pending;
    PendingStep(lines, j, t);
    hide Gated, PendingAfter, Start, Flat, Depths;
    if c == '{' {
      OpenStep(lines, j + 1, t, depth, entries, pending);
      hide ScanAt;
      depth' := depth' + 1;
      if pending' {
        entries' := entries' + [depth'];
        pending' := false;
      }
    } else if c == '}' {
      depth' := depth' - 1;
      entries' := PopScopes(depth', entries);
      CloseStep(lines, j + 1, t, depth, entries, pending, entries');
    }
  }

  method ScanLine<L>(lines: seq<Line<L>>, i: nat, depth: int, entries: seq<int>, pending: bool)
    returns (depth': int, entries': seq<int>, pending': bool)
    requires i < |lines| && Start(lines, i + 1) == Start(lines, i) + |lines[i].text| <= |Flat(lines)|
    requires ScanAt(lines, i + 1, Start(lines, i), depth, entries, pending)
    ensures ScanAt(lines, i + 1, Start(lines, i + 1), depth', entries', pending')
  {
    hide ScanAt, Flat, Start;
    depth', entries', pending' := depth, entries, pending;
    StartNext(lines, i);
    for j := 0 to |lines[i].text|
      invariant ScanAt(lines, i + 1, Start(lines, i) + j, depth', entries', pending')
    {
      assert Flat(lines)[Start(lines, i) + j] == Flat(lines)[Start(lines, i)..Start(lines, i + 1)][j];
      depth', entries', pending' := ScanChar(lines, i, Start(lines, i) + j, lines[i].text[j], depth', entries', pending');
    }
  }

  /** A gated brace encloses the start of line `i` or its end. */
  ghost predicate TouchesTestScope<L>(lines: seq<Line<L>>, i: nat)
    requires i < |lines|
  {
    && Start(lines, i) <= Start(lines, i + 1) <= |Flat(lines)|
    && (InTestScope(lines, Start(lines, i)) || InTestScope(lines, Start(lines, i + 1)))
  }

  lemma MarkPends<L>(lines: seq<Line<L>>, i: nat)
    requires i < |lines| && Start(lines, i) <= |Flat(lines)|
    ensures PendingAfter(lines, i + 1, Start(lines, i)) <==> PendingAfter(lines, i, Start(lines, i)) || lines[i].mark.Some?
  {
    hide Flat;
    if lines[i].mark.Some? { assert Pends(lines, i, Start(lines, i)); }
  }

  /** The scanner between two lines. */
  ghost predicate BetweenLines<L>(lines: seq<Line<L>>, n: nat, i: nat, depth: int, entries: seq<int>, pending: bool)
    requires n <= |lines| && i <= |lines|
  {
    Start(lines, i) <= |Flat(lines)| && ScanAt(lines, n, Start(lines, i), depth, entries, pending)
  }

  lemma ScanBegins<L>(lines: seq<Line<L>>)
    ensures BetweenLines(lines, 0, 0, 0, [], false)
  {
    assert lines[..0] == [];
  }

  lemma EntriesMeanScope<L>(lines: seq<Line<L>>, n: nat, i: nat, depth: int, entries: seq<int>, pending: bool)
    requires n <= |lines| && i <= |lines| && BetweenLines(lines, n, i, depth, entries, pending)
    ensures entries != [] <==> InTestScope(lines, Start(lines, i))
  {
    hide Flat, InTestScope, Depths;
    DepthsMeanScope(lines, Start(lines, i), depth - |Stack(Flat(lines), Start(lines, i))|);
  }

  /** One line: its mark, its characters, and whether a scope was open before or after. */
  method ScanMarkedLine<L>(lines: seq<Line<L>>, i: nat, depth: int, entries: seq<int>, pending: bool)
    returns (depth': int, entries': seq<int>, pending': bool, inTest: bool)
    requires i < |lines| && BetweenLines(lines, i, i, depth, entries, pending)
    ensures BetweenLines(lines, i + 1, i + 1, depth', entries', pending')
    ensures inTest <==> TouchesTestScope(lines, i)
  {
    StartNext(lines, i);
    MarkPends(lines, i);
    EntriesMeanScope(lines, i, i, depth, entries, pending);
    hide Flat, Start, PendingAfter, Depths, InTestScope;
    var marked := pending || lines[i].mark.Some?;
    var before := entries != [];
    depth', entries', pending' := ScanLine(lines, i, depth, entries, marked);
    EntriesMeanScope(lines, i + 1, i + 1, depth', entries', pending');
    inTest := before || entries' != [];
  }

  /** A line counts as test code exactly when a gated brace encloses its start or its
      end, for every text. */
  method InlineTestScopeLines<L>(lines: seq<Line<L>>) returns (result: seq<bool>)
    ensures |result| == |lines|
    ensures forall i: nat :: i < |lines| ==> (result[i] <==> TouchesTestScope(lines, i))
  {
    hide BetweenLines, TouchesTestScope;
    result := [];
    var depth, entries: seq<int>, pending := 0, [], false;
    ScanBegins(lines);
    for i := 0 to |lines|
      invariant |result| == i
      invariant BetweenLines(lines, i, i, depth, entries, pending)
      invariant forall k: nat :: k < i ==> (result[k] <==> TouchesTestScope(lines, k))
    {
      var inTest;
      depth, entries, pending, inTest := ScanMarkedLine(lines, i, depth, entries, pending);
      result := result + [inTest];
    }
  }

  // ----- Nearest labels -----

  /** The brace at `p` is the first one opened on line `i`. */
  ghost predicate Heads<L>(lines: seq<Line<L>>, i: nat, p: nat)
    requires i < |lines|
  {
    && Start(lines, i) <= p < Start(lines, i + 1) <= |Flat(lines)| && Flat(lines)[p] == '{'
    && NoneOpened(Flat(lines), Start(lines, i), p)
  }

  /** The brace at `p` carries label `l`: it is the first on a line the patterns label. */
  ghost predicate Labelled<L>(lines: seq<Line<L>>, p: nat, l: L) {
    exists i: nat :: i < |lines| && Heads(lines, i, p) && lines[i].mark == Some(l)
  }

  ghost predicate HasLabel<L(!new)>(lines: seq<Line<L>>, p: nat) {
    exists l: L :: Labelled(lines, p, l)
  }

  /** `r` is the label of the innermost labelled brace open at `t`, or none is open. */
  ghost predicate NearestLabel<L(!new)>(lines: seq<Line<L>>, t: nat, r: Option<L>)
    requires t <= |Flat(lines)|
  {
    match r
    case Some(l) => exists p: nat :: Encloses(Flat(lines), p, t) && Labelled(lines, p, l) &&
                      forall q: nat :: p < q && Encloses(Flat(lines), q, t) ==> !HasLabel(lines, q)
    case None => forall q: nat :: Encloses(Flat(lines), q, t) ==> !HasLabel(lines, q)
  }

  /** Entry `k` of the label stack is the nearest label among the first `k + 1` braces. */
  ghost predicate NearestOf<L(!new)>(lines: seq<Line<L>>, s: seq<nat>, r: Option<L>) {
    match r
    case Some(l) => exists k :: 0 <= k < |s| && Labelled(lines, s[k], l) && forall j :: k < j < |s| ==> !HasLabel(lines, s[j])
    case None => forall j :: 0 <= j < |s| ==> !HasLabel(lines, s[j])
  }

  ghost predicate LabelsFollow<L(!new)>(lines: seq<Line<L>>, s: seq<nat>, labels: seq<Option<L>>) {
    && |labels| == |s|
    && forall k: nat {:trigger labels[k]} :: k < |s| ==> NearestOf(lines, s[..k + 1], labels[k])
  }

  function Top<L>(labels: seq<Option<L>>): Option<L> {
    if labels == [] then None else labels[|labels| - 1]
  }

  lemma TopIsNearest<L(!new)>(lines: seq<Line<L>>, t: nat, labels: seq<Option<L>>)
    requires t <= |Flat(lines)| && LabelsFollow(lines, Stack(Flat(lines), t), labels)
    ensures NearestOf(lines, Stack(Flat(lines), t), Top(labels)) && NearestLabel(lines, t, Top(labels))
  {
    var text := Flat(lines);
    var s := Stack(text, t);
    if s != [] {
      assert s[..|s| - 1 + 1] == s;
      assert NearestOf(lines, s[..|s| - 1 + 1], labels[|s| - 1]);
    }
    NearestOnStack(lines, t, Top(labels));
  }

  lemma NearestOnStack<L(!new)>(lines: seq<Line<L>>, t: nat, r: Option<L>)
    requires t <= |Flat(lines)| && NearestOf(lines, Stack(Flat(lines), t), r)
    ensures NearestLabel(lines, t, r)
  {
    hide Flat, Stack, Encloses, HasLabel, Labelled;
    var text := Flat(lines);
    var s := Stack(text, t);
    forall q: nat ensures q in s <==> Encloses(text, q, t) { StackIsEnclosing(text, t, q); }
    if r.Some? {
      var k :| 0 <= k < |s| && Labelled(lines, s[k], r.value) && forall j :: k < j < |s| ==> !HasLabel(lines, s[j]);
      var p := s[k];
      forall q: nat | p < q && Encloses(text, q, t) ensures !HasLabel(lines, q) {
        var j :| 0 <= j < |s| && s[j] == q;
        if j < k { StackShape(text, t, k); }
      }
      assert Encloses(text, p, t) && Labelled(lines, p, r.value);
    }
  }

  /** Pushing a brace: its own label if it has one, or the one below it again. */
  lemma PushLabel<L(!new)>(lines: seq<Line<L>>, s: seq<nat>, labels: seq<Option<L>>, p: nat, r: Option<L>)
    requires LabelsFollow(lines, s, labels) && NearestOf(lines, s, Top(labels))
    requires if HasLabel(lines, p) then r.Some? && Labelled(lines, p, r.value) else r == Top(labels)
    ensures LabelsFollow(lines, s + [p], labels + [r])
  {
    hide HasLabel, Labelled;
    var s', labels' := s + [p], labels + [r];
    forall k: nat | k < |s'| ensures NearestOf(lines, s'[..k + 1], labels'[k]) {
      if k < |s| {
        assert s'[..k + 1] == s[..k + 1] && labels'[k] == labels[k];
      } else {
        assert s'[..k + 1] == s';
        PushNearest(lines, s, Top(labels), p, r);
      }
    }
  }

  lemma PushNearest<L(!new)>(lines: seq<Line<L>>, s: seq<nat>, r0: Option<L>, p: nat, r: Option<L>)
    requires NearestOf(lines, s, r0)
    requires if HasLabel(lines, p) then r.Some? && Labelled(lines, p, r.value) else r == r0
    ensures NearestOf(lines, s + [p], r)
  {
    hide HasLabel, Labelled;
    var s' := s + [p];
    if HasLabel(lines, p) {
      assert s'[|s|] == p;
    } else if r.Some? {
      var k :| 0 <= k < |s| && Labelled(lines, s[k], r.value) && forall j :: k < j < |s| ==> !HasLabel(lines, s[j]);
      assert s'[k] == s[k];
    }
  }

  lemma PopLabel<L(!new)>(lines: seq<Line<L>>, s: seq<nat>, labels: seq<Option<L>>)
    requires LabelsFollow(lines, s, labels) && s != []
    ensures LabelsFollow(lines, s[..|s| - 1], labels[..|s| - 1])
  {
    var s', labels' := s[..|s| - 1], labels[..|s| - 1];
    forall k: nat | k < |s'| ensures NearestOf(lines, s'[..k + 1], labels'[k]) {
      assert s'[..k + 1] == s[..k + 1];
      assert NearestOf(lines, s[..k + 1], labels[k]);
    }
  }

  /** On line `i`, a brace is labelled exactly when the line is and it is the first. */
  lemma LabelOnLine<L(!new)>(lines: seq<Line<L>>, i: nat, p: nat, l: L)
    requires i < |lines| && Start(lines, i) <= p < Start(lines, i + 1) <= |Flat(lines)| && Flat(lines)[p] == '{'
    ensures Labelled(lines, p, l) <==> lines[i].mark == Some(l) && NoneOpened(Flat(lines), Start(lines, i), p)
  {
    forall m: nat | m < |lines| && Heads(lines, m, p) ensures m == i {
      if m < i { StartMonotone(lines, m + 1, i); }
      if i < m { StartMonotone(lines, i + 1, m); }
    }
    hide Flat, Start;
    if lines[i].mark == Some(l) && NoneOpened(Flat(lines), Start(lines, i), p) {
      assert Heads(lines, i, p);
    }
  }

  /** The label stack at position `t`. */
  ghost predicate LabelsAt<L(!new)>(lines: seq<Line<L>>, t: nat, labels: seq<Option<L>>)
    requires t <= |Flat(lines)|
  {
    LabelsFollow(lines, Stack(Flat(lines), t), labels)
  }

  method LabelChar<L(!new)>(ghost lines: seq<Line<L>>, ghost i: nat, ghost t: nat, c: char, mark: Option<L>,
                            labels: seq<Option<L>>, used: bool)
    returns (labels': seq<Option<L>>, used': bool)
    requires i < |lines| && lines[i].mark == mark
    requires Start(lines, i) <= t < Start(lines, i + 1) <= |Flat(lines)| && Flat(lines)[t] == c
    requires LabelsAt(lines, t, labels)
    requires mark.Some? ==> (used <==> !NoneOpened(Flat(lines), Start(lines, i), t))
    ensures LabelsAt(lines, t + 1, labels')
    ensures mark.Some? ==> (used' <==> !NoneOpened(Flat(lines), Start(lines, i), t + 1))
  {
    hide Flat, Start, LabelsFollow, NearestOf, NearestLabel, Labelled;
    labels', used' := labels, used;
    ghost var s := Stack(Flat(lines), t);
    if c == '{' {
      TopIsNearest(lines, t, labels);
      forall l: L ensures Labelled(lines, t, l) <==> mark == Some(l) && NoneOpened(Flat(lines), Start(lines, i), t) {
        LabelOnLine(lines, i, t, l);
      }
      var r := if mark.Some? && !used then mark else Top(labels);
      assert mark.Some? && !used ==> Labelled(lines, t, mark.value);
      PushLabel(lines, s, labels, t, r);
      labels' := labels + [r];
      used' := used || mark.Some?;
    } else if c == '}' && labels != [] {
      assert |labels| == |s| by { FollowLength(lines, s, labels); }
      PopLabel(lines, s, labels);
      labels' := labels[..|labels| - 1];
    } else {
      FollowLength(lines, s, labels);
    }
  }

  lemma FollowLength<L(!new)>(lines: seq<Line<L>>, s: seq<nat>, labels: seq<Option<L>>)
    requires LabelsFollow(lines, s, labels)
    ensures |labels| == |s|
  {
  }

  method LabelLine<L(!new)>(lines: seq<Line<L>>, i: nat, labels: seq<Option<L>>) returns (labels': seq<Option<L>>)
    requires i < |lines| && Start(lines, i + 1) == Start(lines, i) + |lines[i].text| <= |Flat(lines)|
    requires LabelsAt(lines, Start(lines, i), labels)
    ensures LabelsAt(lines, Start(lines, i + 1), labels')
  {
    hide LabelsAt, Flat, Start;
    labels' := labels;
    var used := false;
    StartNext(lines, i);
    for j := 0 to |lines[i].text|
      invariant LabelsAt(lines, Start(lines, i) + j, labels')
      invariant lines[i].mark.Some? ==> (used <==> !NoneOpened(Flat(lines), Start(lines, i), Start(lines, i) + j))
    {
      assert Flat(lines)[Start(lines, i) + j] == Flat(lines)[Start(lines, i)..Start(lines, i + 1)][j];
      labels', used := LabelChar(lines, i, Start(lines, i) + j, lines[i].text[j], lines[i].mark, labels', used);
    }
  }

  /** `r` is the kind of block that line `i` starts in; none is the top level. */
  ghost predicate StartsIn<L(!new)>(lines: seq<Line<L>>, i: nat, r: Option<L>)
    requires i < |lines|
  {
    Start(lines, i) <= |Flat(lines)| && NearestLabel(lines, Start(lines, i), r)
  }

  /** Inheriting labels down the stack gives every line the nearest labelled block
      around its start. */
  method EnclosingBlockKinds<L(!new)>(lines: seq<Line<L>>) returns (result: seq<Option<L>>)
    ensures |result| == |lines|
    ensures forall i: nat :: i < |lines| ==> StartsIn(lines, i, result[i])
  {
    result := [];
    var labels: seq<Option<L>> := [];
    assert lines[..0] == [];
    assert Start(lines, 0) == 0;
    hide Flat, Start, NearestLabel, LabelsFollow;
    assert LabelsAt(lines, 0, []) by { NoLabels(lines); }
    for i := 0 to |lines|
      invariant |result| == i && Start(lines, i) <= |Flat(lines)|
      invariant LabelsAt(lines, Start(lines, i), labels)
      invariant forall k: nat :: k < i ==> StartsIn(lines, k, result[k])
    {
      StartNext(lines, i);
      TopIsNearest(lines, Start(lines, i), labels);
      result := result + [Top(labels)];
      labels := LabelLine(lines, i, labels);
    }
  }

  lemma NoLabels<L(!new)>(lines: seq<Line<L>>)
    ensures LabelsAt(lines, 0, [])
  {
  }
}
