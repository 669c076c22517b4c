/** Scanning a method signature: finding its argument list and splitting the parameters,
    with string literals and nested brackets. */
module ArgScanner {
  import opened Options
  import opened ArgGrammar

  // ----- The scanners' common state -----

  /** Inside a string literal or not, after a backslash or not, and the bracket depth. */
  datatype Scan = Scan(inString: bool, escaped: bool, depth: int)

  const START := Scan(false, false, 0)

  /** Which brackets a scanner counts. */
  datatype Brackets = Parens | AllBrackets

  predicate Opens(k: Brackets, c: char) {
    c == '(' || (k.AllBrackets? && (c == '[' || c == '{'))
  }

  predicate Closes(k: Brackets, c: char) {
    c == ')' || (k.AllBrackets? && (c == ']' || c == '}'))
  }

  function Step(k: Brackets, s: Scan, c: char): Scan {
    if s.inString then
      if s.escaped then s.(escaped := false)
      else if c == '\\' then s.(escaped := true)
      else if c == '"' then s.(inString := false)
      else s
    else if c == '"' then s.(inString := true)
    else if Opens(k, c) then s.(depth := s.depth + 1)
    else if Closes(k, c) then s.(depth := s.depth - 1)
    else s
  }

  /** The state after reading `text` from state `s`. */
  function Fold(k: Brackets, s: Scan, text: string): Scan {
    if text == "" then s else Step(k, Fold(k, s, text[..|text| - 1]), text[|text| - 1])
  }

  lemma {:induction false} FoldAppend(k: Brackets, s: Scan, a: string, b: string)
    ensures Fold(k, s, a + b) == Fold(k, Fold(k, s, a), b)
    decreases |b|
  {
    if b == "" {
      assert a + b == a;
    } else {
      var b0 := b[..|b| - 1];
      FoldAppend(k, s, a, b0);
      assert (a + b)[..|a + b| - 1] == a + b0;
    }
  }

  lemma FoldNext(k: Brackets, s: Scan, text: string, i: nat)
    requires i < |text|
    ensures Fold(k, s, text[..i + 1]) == Step(k, Fold(k, s, text[..i]), text[i])
  {
    assert text[..i + 1][..i] == text[..i];
  }

  /** Where the whole text is in its starting state, a scan restarted there agrees with
      the scan of the whole text from then on. */
  lemma RestartAgrees(k: Brackets, text: string, a: nat, i: nat)
    requires a <= i <= |text| && Fold(k, START, text[..a]) == START
    ensures Fold(k, START, text[a..i]) == Fold(k, START, text[..i])
  {
    assert text[..i] == text[..a] + text[a..i];
    FoldAppend(k, START, text[..a], text[a..i]);
  }

  // ----- Scanning what the grammar writes -----

  /** Scanning the text from `s` ends in `s` and never goes below its depth. */
  ghost predicate Level(k: Brackets, s: Scan, text: string) {
    Fold(k, s, text) == s && forall i :: 0 <= i <= |text| ==> Fold(k, s, text[..i]).depth >= s.depth
  }

  lemma FoldOne(k: Brackets, s: Scan, c: char)
    ensures Fold(k, s, [c]) == Step(k, s, c)
  {
    assert [c][..0] == "" && Fold(k, s, "") == s;
  }

  lemma PrefixOf(a: string, b: string, i: nat)
    requires i <= |a + b|
    ensures (a + b)[..i] == if i <= |a| then a[..i] else a + b[..i - |a|]
  {
  }

  lemma LevelJoins(k: Brackets, s: Scan, a: string, b: string)
    requires Level(k, s, a) && Level(k, s, b)
    ensures Level(k, s, a + b)
  {
    hide Fold;
    FoldAppend(k, s, a, b);
    forall i | 0 <= i <= |a + b| ensures Fold(k, s, (a + b)[..i]).depth >= s.depth {
      PrefixOf(a, b, i);
      if i > |a| { FoldAppend(k, s, a, b[..i - |a|]); }
    }
  }

  /** What is level inside is level with a character that goes up and one that comes back. */
  lemma LevelWraps(k: Brackets, s: Scan, open: char, text: string, close: char)
    requires Level(k, Step(k, s, open), text) && Step(k, s, open).depth >= s.depth && Step(k, Step(k, s, open), close) == s
    ensures Level(k, s, [open] + text + [close])
    ensures forall i :: 0 < i < |text| + 2 ==> Fold(k, s, ([open] + text + [close])[..i]) == Fold(k, Step(k, s, open), text[..i - 1])
  {
    hide Fold, Step;
    var whole := [open] + text + [close];
    var up := Step(k, s, open);
    FoldOne(k, s, open);
    FoldAppend(k, s, [open], text);
    FoldAppend(k, s, [open] + text, [close]);
    FoldOne(k, up, close);
    assert whole[..0] == "" && Fold(k, s, "") == s by { FoldEmpty(); }
    assert whole[..|whole|] == whole;
    forall i | 0 < i < |text| + 2 ensures Fold(k, s, whole[..i]) == Fold(k, up, text[..i - 1]) {
      assert whole[..i] == [open] + text[..i - 1];
      FoldAppend(k, s, [open], text[..i - 1]);
    }
  }

  ghost predicate StaysInside(k: Brackets, s: Scan, text: string) {
    forall i :: 0 <= i <= |text| ==> Fold(k, s, text[..i]).inString
  }

  /** Inside a literal, rendered characters leave the scan inside. */
  lemma {:induction false} CharsLevel(k: Brackets, s: Scan, cs: seq<LiteralChar>)
    requires s.inString && !s.escaped
    requires forall i :: 0 <= i < |cs| ==> cs[i].Itself? ==> cs[i].c != '"' && cs[i].c != '\\'
    ensures Level(k, s, RenderChars(cs)) && StaysInside(k, s, RenderChars(cs))
  {
    if cs == [] {
      FoldEmpty();
    } else {
      var first := match cs[0] case Itself(c) => [c] case Escaped(c) => ['\\', c];
      var rest := RenderChars(cs[1..]);
      CharsLevel(k, s, cs[1..]);
      FirstChar(k, s, cs[0]);
      hide Fold;
      LevelJoins(k, s, first, rest);
      forall i | 0 <= i <= |first + rest| ensures Fold(k, s, (first + rest)[..i]).inString {
        PrefixOf(first, rest, i);
        if i > |first| { FoldAppend(k, s, first, rest[..i - |first|]); }
      }
    }
  }

  lemma FirstChar(k: Brackets, s: Scan, lc: LiteralChar)
    requires s.inString && !s.escaped && (lc.Itself? ==> lc.c != '"' && lc.c != '\\')
    ensures var first := match lc case Itself(c) => [c] case Escaped(c) => ['\\', c];
            Level(k, s, first) && StaysInside(k, s, first)
  {
    FoldEmpty();
    if lc.Itself? {
      FoldOne(k, s, lc.c);
      assert [lc.c][..1] == [lc.c];
    } else {
      FoldOne(k, s, '\\');
      var two := ['\\', lc.c];
      assert two[..1] == ['\\'] && two[..2] == two == ['\\'] + [lc.c];
      FoldAppend(k, s, ['\\'], [lc.c]);
      FoldOne(k, s.(escaped := true), lc.c);
    }
  }

  lemma PlainLevel(k: Brackets, s: Scan, c: char)
    requires !s.inString && !s.escaped && c !in "\"()[]{}"
    ensures Level(k, s, [c])
  {
    FoldEmpty();
    FoldOne(k, s, c);
    assert [c][..0] == "" && [c][..1] == [c];
    assert c != '"' && c != '(' && c != ')' && c != '[' && c != ']' && c != '{' && c != '}' by { NotSpecial(c); }
  }

  lemma NotSpecial(c: char)
    requires c !in "\"()[]{}"
    ensures c != '"' && c != '(' && c != ')' && c != '[' && c != ']' && c != '{' && c != '}'
  {
    var special := "\"()[]{}";
    assert special[0] in special && special[1] in special && special[2] in special && special[3] in special;
    assert special[4] in special && special[5] in special && special[6] in special;
  }

  lemma LiteralLevel(k: Brackets, s: Scan, cs: seq<LiteralChar>)
    requires !s.inString && !s.escaped && ProperPiece(Literal(cs))
    ensures Level(k, s, RenderPiece(Literal(cs)))
    ensures forall i :: 0 < i < |RenderPiece(Literal(cs))| ==> Fold(k, s, RenderPiece(Literal(cs))[..i]).inString
  {
    CharsLevel(k, Step(k, s, '"'), cs);
    hide Fold;
    LevelWraps(k, s, '"', RenderChars(cs), '"');
    assert RenderPiece(Literal(cs)) == ['"'] + RenderChars(cs) + ['"'];
  }

  lemma {:induction false} GroupLevel(k: Brackets, s: Scan, shape: Shape, inner: seq<Piece>)
    requires !s.inString && !s.escaped && Proper(inner)
    ensures Level(k, s, RenderPiece(Group(shape, inner)))
    ensures forall i :: 0 < i < |RenderPiece(Group(shape, inner))| ==>
              Fold(k, s, RenderPiece(Group(shape, inner))[..i]).depth >= Step(k, s, shape.Open()).depth
    decreases inner, 1
  {
    hide Fold;
    PiecesLevel(k, Step(k, s, shape.Open()), inner);
    LevelWraps(k, s, shape.Open(), Render(inner), shape.Close());
  }

  /** Outside literals, rendered pieces are level, for either kind of brackets. */
  lemma {:induction false} PiecesLevel(k: Brackets, s: Scan, ps: seq<Piece>)
    requires !s.inString && !s.escaped && Proper(ps)
    ensures Level(k, s, Render(ps))
    decreases ps, 0
  {
    hide Fold, Step;
    if ps == [] {
      FoldEmpty();
    } else {
      match ps[0] {
        case Plain(c) => PlainLevel(k, s, c);
        case Literal(cs) => LiteralLevel(k, s, cs);
        case Group(shape, inner) => GroupLevel(k, s, shape, inner);
      }
      PiecesLevel(k, s, ps[1..]);
      LevelJoins(k, s, RenderPiece(ps[0]), Render(ps[1..]));
    }
  }

  /** No comma of the text is met in the starting state. */
  ghost predicate Shut(text: string) {
    forall i :: 0 <= i < |text| && text[i] == ',' ==> Fold(AllBrackets, START, text[..i]) != START
  }

  lemma ShutJoins(a: string, b: string)
    requires Fold(AllBrackets, START, a) == START && Shut(a) && Shut(b)
    ensures Shut(a + b)
  {
    hide Fold;
    forall i | 0 <= i < |a + b| && (a + b)[i] == ',' ensures Fold(AllBrackets, START, (a + b)[..i]) != START {
      PrefixOf(a, b, i);
      if i >= |a| {
        assert (a + b)[..i] == a + b[..i - |a|];
        FoldAppend(AllBrackets, START, a, b[..i - |a|]);
      }
    }
  }

  lemma PieceShut(p: Piece)
    requires ProperPiece(p) && p != Plain(',')
    ensures Shut(RenderPiece(p)) && Fold(AllBrackets, START, RenderPiece(p)) == START
  {
    hide Fold;
    match p
    case Plain(c) => PlainLevel(AllBrackets, START, c);
    case Literal(cs) => LiteralLevel(AllBrackets, START, cs);
    case Group(shape, inner) => GroupLevel(AllBrackets, START, shape, inner);
  }

  /** Without a comma of their own, pieces are shut. */
  lemma {:induction false} PiecesShut(ps: seq<Piece>)
    requires Proper(ps) && Plain(',') !in ps
    ensures Shut(Render(ps))
  {
    hide Fold, Shut;
    if ps == [] {
      assert Shut("") by { NothingShut(); }
    } else {
      PieceShut(ps[0]);
      PiecesShut(ps[1..]);
      ShutJoins(RenderPiece(ps[0]), Render(ps[1..]));
    }
  }

  lemma NothingShut()
    ensures Shut("")
  {
  }

  // ----- Finding the argument list -----

  function TrimStart(s: string): string {
    if s != "" && Space(s[0]) then TrimStart(s[1..]) else s
  }

  function TrimEnd(s: string): string {
    if s != "" && Space(s[|s| - 1]) then TrimEnd(s[..|s| - 1]) else s
  }

  function Strip(s: string): string { TrimEnd(TrimStart(s)) }

  function FirstComponent(s: string): string {
    if s == "" || s[0] == '.' then "" else [s[0]] + FirstComponent(s[1..])
  }

  /** The first of components with dots between them. */
  lemma {:induction false} FirstOfDotted(a: string, b: string)
    requires '.' !in a
    ensures FirstComponent(a) == a && FirstComponent(a + "." + b) == a
  {
    if a != "" {
      assert a[0] in a;
      FirstOfDotted(a[1..], b);
      assert (a + "." + b)[1..] == a[1..] + "." + b;
      assert a == [a[0]] + a[1..];
    }
  }

  /** What stands before the parenthesis is one word that is no keyword. */
  predicate NameLike(before: string, keywords: set<string>) {
    var prefix := Strip(before);
    && prefix != ""
    && (forall i :: 0 <= i < |prefix| ==> !Space(prefix[i]))
    && FirstComponent(prefix) !in keywords
  }

  function At(text: string, i: nat): Scan
    requires i <= |text|
  {
    Fold(Parens, START, text[..i])
  }

  /** An opening parenthesis outside strings and other parentheses, after a name. */
  predicate Candidate(text: string, keywords: set<string>, a: nat) {
    a < |text| && text[a] == '(' && At(text, a) == START && NameLike(text[..a], keywords)
  }

  /** `e` closes the parenthesis opened at `a`: it is outside strings and the depth is
      higher in between. */
  predicate Matches(text: string, a: nat, e: nat) {
    && a < e < |text| && text[e] == ')' && !At(text, e).inString
    && At(text, e + 1).depth == At(text, a).depth
    && forall i :: a < i <= e ==> At(text, i).depth > At(text, a).depth
  }

  predicate Unmatched(text: string, a: nat) {
    forall e: nat :: e < |text| ==> !Matches(text, a, e)
  }

  lemma MatchUnique(text: string, a: nat, e: nat, f: nat)
    requires Matches(text, a, e) && Matches(text, a, f)
    ensures e == f
  {
    hide At;
    assert At(text, e + 1).depth == At(text, f + 1).depth == At(text, a).depth;
  }

  /** The text is written as a name, a parenthesized group from `a` to `e`, and anything. */
  ghost predicate WrittenArglist(text: string, keywords: set<string>, a: nat, e: nat) {
    exists pre, inner ::
      GroupAt(text, a, e, inner) && Proper(pre) && text[..a] == Render(pre) && NameLike(text[..a], keywords)
  }

  /** A parenthesized group closes where it is written to close. */
  lemma GroupMatches(text: string, a: nat, e: nat, inner: seq<Piece>)
    requires GroupAt(text, a, e, inner) && !At(text, a).inString && !At(text, a).escaped
    ensures Matches(text, a, e)
  {
    hide Fold;
    var s, whole := At(text, a), RenderPiece(Group(Round, inner));
    GroupLevel(Parens, s, Round, inner);
    assert whole == text[a..e + 1];
    forall i | a < i <= e + 1 ensures At(text, i) == Fold(Parens, s, whole[..i - a]) {
      assert text[..i] == text[..a] + whole[..i - a];
      FoldAppend(Parens, START, text[..a], whole[..i - a]);
    }
    assert whole[..|whole|] == whole;
    InsideGroup(text, a, e, inner);
  }

  /** Just before the closing parenthesis the scan is not in a literal. */
  lemma InsideGroup(text: string, a: nat, e: nat, inner: seq<Piece>)
    requires GroupAt(text, a, e, inner) && !At(text, a).inString && !At(text, a).escaped
    ensures !At(text, e).inString
  {
    hide Fold;
    var up := Step(Parens, At(text, a), '(');
    FoldNext(Parens, START, text, a);
    PiecesLevel(Parens, up, inner);
    assert text[..e] == text[..a + 1] + Render(inner);
    FoldAppend(Parens, START, text[..a + 1], Render(inner));
  }

  lemma MatchedSomewhere(text: string, a: nat, e: nat)
    requires Matches(text, a, e)
    ensures !Unmatched(text, a)
  {
  }

  lemma GroupsEnd(text: string, start: nat, end: Option<nat>)
    requires start < |text| && At(text, start) == START
    requires match end case Some(e) => Matches(text, start, e) case None => Unmatched(text, start)
    ensures forall e: nat, inner :: GroupAt(text, start, e, inner) ==> end == Some(e)
  {
    hide Matches, Unmatched, GroupAt;
    forall e: nat, inner | GroupAt(text, start, e, inner) ensures end == Some(e) {
      GroupMatches(text, start, e, inner);
      MatchedSomewhere(text, start, e);
      if end.Some? { MatchUnique(text, start, e, end.value); }
    }
  }

  lemma WrittenMatches(text: string, keywords: set<string>, a: nat, e: nat)
    requires WrittenArglist(text, keywords, a, e)
    ensures Candidate(text, keywords, a) && Matches(text, a, e)
  {
    hide NameLike, Matches, Fold;
    var pre, inner :| GroupAt(text, a, e, inner) && Proper(pre) && text[..a] == Render(pre) && NameLike(text[..a], keywords);
    PiecesLevel(Parens, START, pre);
    GroupMatches(text, a, e, inner);
  }

  /** All candidates, in order. */
  function Candidates(text: string, keywords: set<string>, n: nat): (s: seq<nat>)
    requires n <= |text|
    ensures forall a: nat :: a in s <==> a < n && Candidate(text, keywords, a)
    ensures forall i, j :: 0 <= i < j < |s| ==> s[i] < s[j]
  {
    if n == 0 then [] else
    var s := Candidates(text, keywords, n - 1);
    assert forall i :: 0 <= i < |s| ==> s[i] in s;
    s + (if Candidate(text, keywords, n - 1) then [n - 1] else [])
  }

  method CollectCandidates(text: string, keywords: set<string>) returns (candidates: seq<nat>)
    ensures candidates == Candidates(text, keywords, |text|)
  {
    hide NameLike, Fold;
    candidates := [];
    var depth, inString, escaped := 0, false, false;
    assert At(text, 0) == START by { FoldEmpty(); }
    for index := 0 to |text|
      invariant Scan(inString, escaped, depth) == At(text, index)
      invariant !inString ==> !escaped
      invariant candidates == Candidates(text, keywords, index)
    {
      FoldNext(Parens, START, text, index);
      var ch := text[index];
      if inString {
        if escaped { escaped := false; }
        else if ch == '\\' { escaped := true; }
        else if ch == '"' { inString := false; }
      } else if ch == '"' {
        inString := true;
      } else if ch == '(' {
        if depth == 0 && NameLike(text[..index], keywords) { candidates := candidates + [index]; }
        depth := depth + 1;
      } else if ch == ')' {
        depth := depth - 1;
      }
    }
  }

  lemma FoldEmpty()
    ensures forall k: Brackets, s: Scan :: Fold(k, s, "") == s
    ensures forall text: string :: At(text, 0) == START
  {
    forall text: string ensures At(text, 0) == START { assert text[..0] == ""; }
  }

  /** The second scan, started afresh at a candidate, finds the true match or reports
      that there is none. */
  method MatchFrom(text: string, start: nat) returns (end: Option<nat>)
    requires start < |text| && text[start] == '(' && At(text, start) == START
    ensures match end case Some(e) => Matches(text, start, e) case None => Unmatched(text, start)
    ensures forall e: nat, inner :: GroupAt(text, start, e, inner) ==> end == Some(e)
  {
    hide Fold, Matches, GroupAt;
    var depth, inString, escaped := 0, false, false;
    for index := start to |text|
      invariant Scan(inString, escaped, depth) == At(text, index)
      invariant forall i :: start < i <= index ==> At(text, i).depth > 0
    {
      FoldNext(Parens, START, text, index);
      var ch := text[index];
      if inString {
        if escaped { escaped := false; }
        else if ch == '\\' { escaped := true; }
        else if ch == '"' { inString := false; }
      } else if ch == '"' {
        inString := true;
      } else if ch == '(' {
        depth := depth + 1;
      } else if ch == ')' {
        depth := depth - 1;
        if depth == 0 {
          assert Matches(text, start, index) by { Matched(text, start, index); }
          end := Some(index);
          GroupsEnd(text, start, end);
          return;
        }
      }
      assert At(text, index + 1) == Scan(inString, escaped, depth);
    }
    NoMatch(text, start);
    end := None;
    GroupsEnd(text, start, end);
  }

  lemma Matched(text: string, start: nat, index: nat)
    requires start < index < |text| && text[index] == ')' && At(text, start) == START
    requires !At(text, index).inString && At(text, index + 1).depth == 0
    requires forall i :: start < i <= index ==> At(text, i).depth > 0
    ensures Matches(text, start, index)
  {
    hide At;
  }

  lemma NoMatch(text: string, start: nat)
    requires start < |text| && At(text, start) == START
    requires forall i :: start < i <= |text| ==> At(text, i).depth > 0
    ensures Unmatched(text, start)
  {
    hide At;
  }

  /** The last candidate that closes, with its own closing parenthesis; none exactly
      when no candidate closes. */
  method FindArglist(text: string, keywords: set<string>) returns (found: Option<(nat, nat)>)
    ensures match found
      case Some((a, e)) => Candidate(text, keywords, a) && Matches(text, a, e) &&
        forall b: nat :: a < b && Candidate(text, keywords, b) ==> Unmatched(text, b)
      case None => forall b: nat :: Candidate(text, keywords, b) ==> Unmatched(text, b)
    ensures forall a: nat, e: nat :: WrittenArglist(text, keywords, a, e) ==>
              found.Some? && a <= found.value.0 && (a == found.value.0 ==> e == found.value.1)
  {
    hide Matches, Unmatched, WrittenArglist;
    var candidates := CollectCandidates(text, keywords);
    var i := |candidates|;
    while i > 0
      invariant 0 <= i <= |candidates|
      invariant forall k :: i <= k < |candidates| ==> Unmatched(text, candidates[k])
    {
      i := i - 1;
      var start := candidates[i];
      assert start in candidates;
      assert Candidate(text, keywords, start);
      var end := MatchFrom(text, start);
      if end.Some? {
        found := Some((start, end.value));
        WrittenFound(text, keywords, found);
        return;
      }
    }
    found := None;
    WrittenFound(text, keywords, found);
  }

  /** What is found is the last argument list that is written out, or comes after it. */
  lemma WrittenFound(text: string, keywords: set<string>, found: Option<(nat, nat)>)
    requires match found
      case Some((a, e)) => Matches(text, a, e) && forall b: nat :: a < b && Candidate(text, keywords, b) ==> Unmatched(text, b)
      case None => forall b: nat :: Candidate(text, keywords, b) ==> Unmatched(text, b)
    ensures forall a: nat, e: nat :: WrittenArglist(text, keywords, a, e) ==>
              found.Some? && a <= found.value.0 && (a == found.value.0 ==> e == found.value.1)
  {
    hide Candidate, Matches, WrittenArglist, Unmatched;
    forall a: nat, e: nat | WrittenArglist(text, keywords, a, e)
      ensures found.Some? && a <= found.value.0 && (a == found.value.0 ==> e == found.value.1)
    {
      WrittenMatches(text, keywords, a, e);
      MatchedSomewhere(text, a, e);
      if found.Some? && a == found.value.0 { MatchUnique(text, a, e, found.value.1); }
    }
  }

  // ----- Splitting the parameters -----

  /** A comma outside strings and brackets. */
  predicate TopComma(text: string, i: nat) {
    i < |text| && text[i] == ',' && Fold(AllBrackets, START, text[..i]) == START
  }

  /** The top-level commas before `n`, in order. */
  function Cuts(text: string, n: nat): (s: seq<nat>)
    requires n <= |text|
    ensures forall i: nat :: i in s <==> i < n && TopComma(text, i)
    ensures forall i :: 0 <= i < |s| ==> s[i] < n
  {
    if n == 0 then [] else Cuts(text, n - 1) + (if TopComma(text, n - 1) then [n - 1] else [])
  }

  /** Where the piece after the last of the cuts begins. */
  function Tail(cuts: seq<nat>): nat {
    if cuts == [] then 0 else cuts[|cuts| - 1] + 1
  }

  /** The stretches between cuts, without the commas. */
  function Pieces(text: string, cuts: seq<nat>): seq<string>
    requires forall i :: 0 <= i < |cuts| ==> cuts[i] < |text|
  {
    if cuts == [] then [] else
    var n := |cuts| - 1;
    var a, b := Tail(cuts[..n]), cuts[n];
    Pieces(text, cuts[..n]) + [if a <= b then text[a..b] else ""]
  }

  /** The pieces that are not blank, without the blanks around them. */
  function Kept(pieces: seq<string>): seq<string> {
    if pieces == [] then [] else
    var n := |pieces| - 1;
    Kept(pieces[..n]) + (if Strip(pieces[n]) != "" then [Strip(pieces[n])] else [])
  }

  /** Cut at exactly the top-level commas, losing only blanks and empty pieces. */
  function Params(text: string): seq<string> {
    var cuts := Cuts(text, |text|);
    Kept(Pieces(text, cuts) + [if Tail(cuts) <= |text| then text[Tail(cuts)..] else ""])
  }

  lemma {:induction false} TailWithin(text: string, n: nat)
    requires n <= |text|
    ensures Tail(Cuts(text, n)) <= n
    decreases n
  {
    if n > 0 { TailWithin(text, n - 1); }
  }

  lemma KeptNext(pieces: seq<string>, p: string)
    ensures Kept(pieces + [p]) == Kept(pieces) + (if Strip(p) != "" then [Strip(p)] else [])
  {
    assert (pieces + [p])[..|pieces|] == pieces;
  }

  lemma PiecesNext(text: string, cuts: seq<nat>, c: nat)
    requires (forall i :: 0 <= i < |cuts| ==> cuts[i] < |text|) && Tail(cuts) <= c < |text|
    ensures Pieces(text, cuts + [c]) == Pieces(text, cuts) + [text[Tail(cuts)..c]]
  {
    assert (cuts + [c])[..|cuts|] == cuts;
  }

  lemma CutNext(text: string, n: nat)
    requires n < |text|
    ensures Cuts(text, n + 1) == if TopComma(text, n) then Cuts(text, n) + [n] else Cuts(text, n)
    ensures Tail(Cuts(text, n)) <= n && Tail(Cuts(text, n + 1)) == if TopComma(text, n) then n + 1 else Tail(Cuts(text, n))
  {
    hide TopComma;
    TailWithin(text, n);
  }

  /** What the splitter's variables hold after `i` characters. */
  ghost predicate SplitAt(text: string, i: nat, result: seq<string>, current: string)
    requires i <= |text|
  {
    var cuts := Cuts(text, i);
    Tail(cuts) <= i && current == text[Tail(cuts)..i] && result == Kept(Pieces(text, cuts))
  }

  lemma SplitNext(text: string, i: nat, result: seq<string>, current: string)
    requires i < |text| && SplitAt(text, i, result, current)
    ensures TopComma(text, i) ==> SplitAt(text, i + 1, result + (if Strip(current) != "" then [Strip(current)] else []), "")
    ensures !TopComma(text, i) ==> SplitAt(text, i + 1, result, current + [text[i]])
  {
    hide Cuts, TopComma, Tail, Pieces, Kept, Strip;
    CutNext(text, i);
    var cuts := Cuts(text, i);
    if TopComma(text, i) {
      PiecesNext(text, cuts, i);
      KeptNext(Pieces(text, cuts), current);
      assert text[i + 1..i + 1] == "";
    } else {
      assert current + [text[i]] == text[Tail(cuts)..i + 1];
    }
  }

  lemma SplitEnd(text: string, result: seq<string>, current: string)
    requires SplitAt(text, |text|, result, current)
    ensures Params(text) == result + (if Strip(current) != "" then [Strip(current)] else [])
  {
    hide Strip, Cuts, Kept, Pieces, Tail;
    var cuts := Cuts(text, |text|);
    KeptNext(Pieces(text, cuts), current);
    assert text[Tail(cuts)..|text|] == text[Tail(cuts)..];
  }

  lemma SplitStart(text: string)
    ensures SplitAt(text, 0, [], "") && Fold(AllBrackets, START, text[..0]) == START
  {
    assert text[..0] == "";
  }

  method SplitParams(params: string) returns (result: seq<string>)
    ensures result == Params(params)
    ensures forall ws :: ProperList(ws) && Listing(ws) == params ==> result == Cores(ws)
  {
    hide Fold, Strip, Params, SplitAt, ProperList;
    forall ws | ProperList(ws) && Listing(ws) == params ensures Params(params) == Cores(ws) { ListingSplit(ws); }
    result := [];
    var current := "";
    var depth, inString, escaped := 0, false, false;
    SplitStart(params);
    for i := 0 to |params|
      invariant Scan(inString, escaped, depth) == Fold(AllBrackets, START, params[..i])
      invariant !inString ==> !escaped
      invariant SplitAt(params, i, result, current)
    {
      FoldNext(AllBrackets, START, params, i);
      SplitNext(params, i, result, current);
      assert result + [] == result;
      var ch := params[i];
      if inString {
        current := current + [ch];
        if escaped { escaped := false; }
        else if ch == '\\' { escaped := true; }
        else if ch == '"' { inString := false; }
      } else if ch == '"' {
        inString := true;
        current := current + [ch];
      } else if Opens(AllBrackets, ch) {
        depth := depth + 1;
        current := current + [ch];
      } else if Closes(AllBrackets, ch) {
        depth := depth - 1;
        current := current + [ch];
      } else if ch == ',' && depth == 0 {
        if Strip(current) != "" { result := result + [Strip(current)]; }
        current := "";
      } else {
        current := current + [ch];
      }
    }
    SplitEnd(params, result, current);
    if Strip(current) != "" { result := result + [Strip(current)]; }
  }

  // ----- Splitting again, and splitting what was joined -----

  /** The text has no top-level comma. */
  predicate OnePiece(text: string) { Cuts(text, |text|) == [] }

  lemma OnePieceParams(text: string)
    requires OnePiece(text)
    ensures Params(text) == if Strip(text) != "" then [Strip(text)] else []
  {
    hide Strip, Cuts;
    KeptNext([], text);
    assert [] + [text] == [text];
    assert text[0..] == text;
  }

  /** From a place where the scan is back at its start, the rest is cut as it would be
      on its own. */
  lemma TopCommaShift(a: string, b: string, i: nat)
    requires Fold(AllBrackets, START, a) == START && i < |b|
    ensures TopComma(a + b, |a| + i) <==> TopComma(b, i)
  {
    assert (a + b)[..|a| + i] == a + b[..i];
    FoldAppend(AllBrackets, START, a, b[..i]);
  }

  lemma TopCommaPrefix(a: string, b: string, i: nat)
    requires i < |a|
    ensures TopComma(a + b, i) <==> TopComma(a, i)
  {
    assert (a + b)[..i] == a[..i];
  }

  lemma {:induction false} NoCuts(text: string, n: nat)
    requires n <= |text|
    ensures Cuts(text, n) == [] <==> forall i: nat :: i < n ==> !TopComma(text, i)
  {
    var s := Cuts(text, n);
    if s != [] {
      assert s[0] in s;
    }
  }

  /** Leaving out a stretch in front that ends at the starting state, and anything
      behind, makes no new top-level comma. */
  lemma OnePieceWithin(a: string, b: string, c: string)
    requires Fold(AllBrackets, START, a) == START
    requires forall i: nat :: |a| <= i < |a| + |b| ==> !TopComma(a + b + c, i)
    ensures OnePiece(b)
  {
    hide TopComma, Fold;
    forall i: nat | i < |b| ensures !TopComma(b, i) {
      TopCommaShift(a, b, i);
      TopCommaPrefix(a + b, c, |a| + i);
    }
    NoCuts(b, |b|);
  }

  lemma {:induction false} FoldBlanks(s: string)
    requires forall i :: 0 <= i < |s| ==> Space(s[i])
    ensures Fold(AllBrackets, START, s) == START
    decreases |s|
  {
    if s != "" { FoldBlanks(s[..|s| - 1]); }
  }

  lemma {:induction false} TrimStartSplits(s: string) returns (blanks: string)
    ensures s == blanks + TrimStart(s) && forall i :: 0 <= i < |blanks| ==> Space(blanks[i])
    ensures TrimStart(s) != "" ==> !Space(TrimStart(s)[0])
    decreases |s|
  {
    hide Space;
    if s != "" && Space(s[0]) {
      var rest := TrimStartSplits(s[1..]);
      blanks := [s[0]] + rest;
    } else {
      blanks := "";
    }
  }

  lemma {:induction false} TrimEndSplits(s: string) returns (blanks: string)
    ensures s == TrimEnd(s) + blanks
    ensures TrimEnd(s) != "" ==> !Space(TrimEnd(s)[|TrimEnd(s)| - 1])
    decreases |s|
  {
    hide Space;
    if s != "" && Space(s[|s| - 1]) {
      var rest := TrimEndSplits(s[..|s| - 1]);
      blanks := rest + [s[|s| - 1]];
    } else {
      blanks := "";
    }
  }

  lemma StripIdempotent(s: string)
    ensures Strip(Strip(s)) == Strip(s)
  {
    var front := TrimStartSplits(s);
    var back := TrimEndSplits(TrimStart(s));
    if Strip(s) != "" {
      assert Strip(s)[0] == TrimStart(s)[0];
    }
  }

  /** What a piece keeps after stripping is still one piece. */
  lemma StripOnePiece(piece: string)
    requires OnePiece(piece)
    ensures OnePiece(Strip(piece))
  {
    hide TrimStart, TrimEnd, Fold, Cuts, TopComma;
    var front := TrimStartSplits(piece);
    var back := TrimEndSplits(TrimStart(piece));
    FoldBlanks(front);
    NoCuts(piece, |piece|);
    var core := Strip(piece);
    assert front + core + back == piece by { assert front + (core + back) == front + core + back; }
    OnePieceWithin(front, core, back);
  }

  /** Between two neighbouring cuts nothing is cut, and the scan starts afresh. */
  lemma {:induction false} PieceIsOne(text: string, n: nat)
    requires n <= |text|
    ensures Tail(Cuts(text, n)) <= n && OnePiece(text[Tail(Cuts(text, n))..n])
    decreases n
  {
    var a := Tail(Cuts(text, n));
    TailWithin(text, n);
    TailAfresh(text, n);
    assert text[..a] + text[a..n] + text[n..] == text;
    forall i: nat | a <= i < n ensures !TopComma(text, i) { CutsDone(text, n, i); }
    OnePieceWithin(text[..a], text[a..n], text[n..]);
  }

  lemma {:induction false} CutsDone(text: string, n: nat, i: nat)
    requires i < n <= |text| && Tail(Cuts(text, n)) <= i
    ensures !TopComma(text, i)
    decreases n
  {
    hide TopComma;
    if i < n - 1 { CutsDone(text, n - 1, i); }
  }

  /** The scan of the text is back at its start at `a`. */
  ghost predicate AfreshAt(text: string, a: nat) {
    a <= |text| && Fold(AllBrackets, START, text[..a]) == START
  }

  lemma AfterComma(text: string, m: nat)
    requires TopComma(text, m)
    ensures AfreshAt(text, m + 1)
  {
    FoldNext(AllBrackets, START, text, m);
  }

  lemma {:induction false} TailAfresh(text: string, n: nat)
    requires n <= |text|
    ensures AfreshAt(text, Tail(Cuts(text, n)))
    decreases n
  {
    if n == 0 {
      assert text[..0] == "";
    } else {
      hide Cuts, Tail, Fold, TopComma, AfreshAt;
      var m: nat := n - 1;
      TailAfresh(text, m);
      CutNext(text, m);
      if TopComma(text, m) { AfterComma(text, m); }
    }
  }

  lemma NoPieces(text: string)
    ensures Pieces(text, Cuts(text, 0)) == []
  {
  }

  lemma {:induction false} PiecesAreOne(text: string, n: nat, p: string)
    requires n <= |text| && p in Pieces(text, Cuts(text, n))
    ensures OnePiece(p)
    decreases n
  {
    hide OnePiece, TopComma, Cuts, Pieces, Tail;
    NoPieces(text);
    if n > 0 {
      var m: nat := n - 1;
      var cuts := Cuts(text, m);
      CutNext(text, m);
      if TopComma(text, m) {
        PieceIsOne(text, m);
        PiecesNext(text, cuts, m);
      }
      if p in Pieces(text, cuts) { PiecesAreOne(text, m, p); }
    }
  }

  lemma {:induction false} KeptFrom(pieces: seq<string>, p: string) returns (q: string)
    requires p in Kept(pieces)
    ensures q in pieces && p == Strip(q) && p != ""
    decreases |pieces|
  {
    hide Strip;
    var n := |pieces| - 1;
    if p in Kept(pieces[..n]) {
      q := KeptFrom(pieces[..n], p);
    } else {
      q := pieces[n];
    }
  }

  /** Splitting is final: a parameter, split again, is itself. */
  lemma SplitAgain(text: string, p: string)
    requires p in Params(text)
    ensures Params(p) == [p]
  {
    hide Params, OnePiece, Strip;
    var cuts := Cuts(text, |text|);
    PieceIsOne(text, |text|);
    var last := text[Tail(cuts)..];
    assert text[Tail(cuts)..|text|] == last;
    ParamsAre(text);
    var q := KeptFrom(Pieces(text, cuts) + [last], p);
    if q in Pieces(text, cuts) { PiecesAreOne(text, |text|, q); }
    assert OnePiece(q);
    StripOnePiece(q);
    StripIdempotent(q);
    OnePieceParams(p);
  }

  lemma ParamsAre(text: string)
    ensures Tail(Cuts(text, |text|)) <= |text|
    ensures Params(text) == Kept(Pieces(text, Cuts(text, |text|)) + [text[Tail(Cuts(text, |text|))..]])
  {
    TailWithin(text, |text|);
  }

  /** A parameter as written: not blank, no blanks around it, no top-level comma, and
      its strings and brackets are closed. */
  predicate WellWritten(p: string) {
    p != "" && Strip(p) == p && OnePiece(p) && Fold(AllBrackets, START, p) == START
  }

  function Join(params: seq<string>): string {
    if params == [] then ""
    else if |params| == 1 then params[0]
    else Join(params[..|params| - 1]) + ", " + params[|params| - 1]
  }

  /** Cutting `a` followed by one more piece. */
  lemma {:induction false} CutsAppend(a: string, p: string, n: nat)
    requires Fold(AllBrackets, START, a) == START && OnePiece(p) && n <= |p|
    ensures Cuts(a + "," + p, |a| + 1 + n) == Cuts(a, |a|) + [|a|]
    decreases n
  {
    hide Cuts, TopComma, Fold, OnePiece;
    var text := a + "," + p;
    if n == 0 {
      CutsSame(a, "," + p, |a|);
      assert a + ("," + p) == text;
      CommaCuts(a, p);
      CutNext(text, |a|);
    } else {
      CutsAppend(a, p, n - 1);
      assert Fold(AllBrackets, START, a + ",") == START by { FoldAppend(AllBrackets, START, a, ","); FoldComma(); }
      PieceNotCut(a + ",", p, n - 1);
      CutNext(text, |a| + n);
    }
  }

  lemma FoldComma()
    ensures Fold(AllBrackets, START, ",") == START
  {
  }

  lemma CommaCuts(a: string, p: string)
    requires Fold(AllBrackets, START, a) == START
    ensures TopComma(a + "," + p, |a|)
  {
    hide Fold;
    assert (a + "," + p)[..|a|] == a;
  }

  lemma PieceNotCut(b: string, p: string, i: nat)
    requires Fold(AllBrackets, START, b) == START && OnePiece(p) && i < |p|
    ensures !TopComma(b + p, |b| + i)
  {
    hide TopComma, Fold, Cuts;
    NoCuts(p, |p|);
    TopCommaShift(b, p, i);
  }

  lemma {:induction false} CutsSame(a: string, b: string, n: nat)
    requires n <= |a|
    ensures Cuts(a + b, n) == Cuts(a, n)
    decreases n
  {
    hide TopComma;
    if n > 0 {
      CutsSame(a, b, n - 1);
      TopCommaPrefix(a, b, n - 1);
    }
  }

  lemma {:induction false} PiecesSame(a: string, b: string, cuts: seq<nat>)
    requires forall i :: 0 <= i < |cuts| ==> cuts[i] < |a|
    ensures Pieces(a + b, cuts) == Pieces(a, cuts)
    decreases |cuts|
  {
    if cuts != [] {
      var n := |cuts| - 1;
      PiecesSame(a, b, cuts[..n]);
      assert Tail(cuts[..n]) <= cuts[n] ==> (a + b)[Tail(cuts[..n])..cuts[n]] == a[Tail(cuts[..n])..cuts[n]];
    }
  }

  lemma ParamsAppend(a: string, p: string)
    requires Fold(AllBrackets, START, a) == START && OnePiece(p)
    ensures Params(a + "," + p) == Params(a) + (if Strip(p) != "" then [Strip(p)] else [])
  {
    hide Strip, Fold, OnePiece, Params, Cuts, Pieces, Kept;
    var text, cuts := a + "," + p, Cuts(a, |a|);
    CutsAppend(a, p, |p|);
    assert Cuts(text, |text|) == cuts + [|a|];
    ParamsAre(text);
    ParamsAre(a);
    assert a + ("," + p) == text;
    CutsSame(a, "," + p, |a|);
    PiecesSame(a, "," + p, cuts);
    PiecesNext(text, cuts, |a|);
    var last := a[Tail(cuts)..];
    assert text[Tail(cuts)..|a|] == last;
    assert text[|a| + 1..] == p;
    hide Tail;
    assert Params(text) == Kept(Pieces(a, cuts) + [last] + [p]);
    KeptNext(Pieces(a, cuts) + [last], p);
  }

  /** What was joined is split again into the same parameters. */
  lemma {:induction false} JoinSplit(params: seq<string>)
    requires forall i :: 0 <= i < |params| ==> WellWritten(params[i])
    ensures Params(Join(params)) == params && Fold(AllBrackets, START, Join(params)) == START
    decreases |params|
  {
    hide Params, Fold, Strip, OnePiece;
    var n := |params|;
    if n == 0 {
      assert OnePiece("") && Strip("") == "" && Fold(AllBrackets, START, "") == START by { EmptyText(); }
      OnePieceParams("");
    } else if n == 1 {
      OnePieceParams(params[0]);
    } else {
      var a, p := Join(params[..n - 1]), params[n - 1];
      JoinSplit(params[..n - 1]);
      BlankFront(p);
      ParamsAppend(a, " " + p);
      assert a + "," + (" " + p) == a + ", " + p == Join(params);
      FoldJoined(a, p);
      assert params[..n - 1] + [p] == params;
    }
  }

  lemma EmptyText()
    ensures OnePiece("") && Strip("") == "" && Fold(AllBrackets, START, "") == START
  {
  }

  lemma FoldJoined(a: string, p: string)
    requires Fold(AllBrackets, START, a) == START && Fold(AllBrackets, START, p) == START
    ensures Fold(AllBrackets, START, a + ", " + p) == START
  {
    FoldAppend(AllBrackets, START, a + ", ", p);
    FoldAppend(AllBrackets, START, a, ", ");
    FoldAppend(AllBrackets, START, ",", " ");
  }

  /** A blank in front changes neither the cuts nor the stripped text. */
  lemma BlankFront(p: string)
    requires WellWritten(p)
    ensures OnePiece(" " + p) && Strip(" " + p) == p
  {
    assert (" " + p)[1..] == p;
    NoCuts(p, |p|);
    FoldBlanks(" ");
    forall i: nat | i < |" " + p| ensures !TopComma(" " + p, i) {
      if i > 0 { TopCommaShift(" ", p, i - 1); }
    }
    NoCuts(" " + p, |" " + p|);
  }

  // ----- Splitting what the grammar writes -----

  lemma {:induction false} TrimBlanks(b: string, t: string)
    requires Blank(b)
    ensures TrimStart(b + t) == TrimStart(t)
  {
    if b == "" {
      assert b + t == t;
    } else {
      TrimBlanks(b[1..], t);
      assert (b + t)[1..] == b[1..] + t;
    }
  }

  lemma {:induction false} TrimBlanksBehind(t: string, b: string)
    requires Blank(b)
    ensures TrimEnd(t + b) == TrimEnd(t)
    decreases |b|
  {
    if b == "" {
      assert t + b == t;
    } else {
      TrimBlanksBehind(t, b[..|b| - 1]);
      assert (t + b)[..|t + b| - 1] == t + b[..|b| - 1];
    }
  }

  /** Stripping takes off the blanks around a text and nothing else. */
  lemma StripPadded(before: string, t: string, after: string)
    requires Blank(before) && Blank(after)
    requires t != "" ==> !Space(t[0]) && !Space(t[|t| - 1])
    ensures Strip(before + t + after) == t
  {
    hide Space;
    assert before + t + after == before + (t + after);
    TrimBlanks(before, t + after);
    if t == "" {
      assert t + after == after + "";
      TrimBlanks(after, "");
    } else {
      TrimBlanksBehind(t, after);
      assert (t + after)[0] == t[0];
    }
  }

  lemma BlankShut(b: string)
    requires Blank(b)
    ensures Fold(AllBrackets, START, b) == START && Shut(b)
  {
    FoldBlanks(b);
    hide Fold;
  }

  lemma ShutIsOnePiece(text: string)
    requires Shut(text)
    ensures OnePiece(text)
  {
    NoCuts(text, |text|);
  }

  /** A written parameter is one closed piece. */
  lemma WrittenIsOne(w: Written)
    requires ProperParameter(w)
    ensures OnePiece(w.Text()) && Fold(AllBrackets, START, w.Text()) == START
    ensures Strip(w.Text()) == Render(w.core) && (Render(w.core) == "" <==> w.core == [])
  {
    var t := Render(w.core);
    StripPadded(w.before, t, w.after);
    hide Strip, Fold, OnePiece, Shut;
    BlankShut(w.before);
    BlankShut(w.after);
    PiecesLevel(AllBrackets, START, w.core);
    PiecesShut(w.core);
    ShutJoins(w.before, t);
    FoldAppend(AllBrackets, START, w.before, t);
    ShutJoins(w.before + t, w.after);
    FoldAppend(AllBrackets, START, w.before + t, w.after);
    ShutIsOnePiece(w.Text());
  }

  /** Parameters of any brackets, literals and blanks, listed with commas between them, are
      split into what was written. */
  lemma {:induction false} ListingSplit(ws: seq<Written>)
    requires ProperList(ws)
    ensures Params(Listing(ws)) == Cores(ws) && Fold(AllBrackets, START, Listing(ws)) == START
    decreases |ws|
  {
    hide Params, Fold, Strip, OnePiece, ProperParameter;
    var n := |ws| - 1;
    if n < 0 {
      assert OnePiece("") && Strip("") == "" && Fold(AllBrackets, START, "") == START by { EmptyText(); }
      OnePieceParams("");
    } else {
      var w := ws[n];
      WrittenIsOne(w);
      if n == 0 {
        OnePieceParams(w.Text());
        assert Cores(ws[..0]) == [];
      } else {
        var a := Listing(ws[..n]);
        ListingSplit(ws[..n]);
        ParamsAppend(a, w.Text());
        FoldAppend(AllBrackets, START, a + ",", w.Text());
        FoldAppend(AllBrackets, START, a, ",");
        FoldComma();
      }
    }
  }
}
