/** How signatures are written, with no reference to any scan: plain characters, string
    literals with escapes, and groups in brackets. */
module ArgGrammar {
  /** What Python counts as white space in a string. */
  predicate Space(c: char) {
    var n := c as int;
    || 0x09 <= n <= 0x0D || 0x1C <= n <= 0x20 || n == 0x85 || n == 0xA0 || n == 0x1680
    || 0x2000 <= n <= 0x200A || n == 0x2028 || n == 0x2029 || n == 0x202F || n == 0x205F || n == 0x3000
  }

  predicate Blank(s: string) {
    forall i :: 0 <= i < |s| ==> Space(s[i])
  }

  /** A character of a string literal, on its own or after a backslash. */
  datatype LiteralChar = Itself(c: char) | Escaped(c: char)

  datatype Shape = Round | Square | Curly
  {
    function Open(): char { match this case Round => '(' case Square => '[' case Curly => '{' }
    function Close(): char { match this case Round => ')' case Square => ']' case Curly => '}' }
  }

  datatype Piece =
    | Plain(c: char)
    | Literal(chars: seq<LiteralChar>)
    | Group(shape: Shape, inner: seq<Piece>)

  function RenderChars(cs: seq<LiteralChar>): string {
    if cs == [] then "" else
    (match cs[0] case Itself(c) => [c] case Escaped(c) => ['\\', c]) + RenderChars(cs[1..])
  }

  function RenderPiece(p: Piece): string {
    match p
    case Plain(c) => [c]
    case Literal(cs) => "\"" + RenderChars(cs) + "\""
    case Group(shape, inner) => [shape.Open()] + Render(inner) + [shape.Close()]
  }

  function Render(ps: seq<Piece>): string {
    if ps == [] then "" else RenderPiece(ps[0]) + Render(ps[1..])
  }

  /** A literal's own characters are neither quotes nor backslashes, and plain characters
      neither quotes nor brackets. */
  predicate Proper(ps: seq<Piece>) {
    forall i :: 0 <= i < |ps| ==> ProperPiece(ps[i])
  }

  predicate ProperPiece(p: Piece) {
    match p
    case Plain(c) => c !in "\"()[]{}"
    case Literal(cs) => forall i :: 0 <= i < |cs| ==> cs[i].Itself? ==> cs[i].c != '"' && cs[i].c != '\\'
    case Group(_, inner) => Proper(inner)
  }

  /** A parameter with the blanks around it. */
  datatype Written = Written(before: string, core: seq<Piece>, after: string)
  {
    function Text(): string { before + Render(core) + after }
  }

  /** The parameter has no comma outside literals and groups, and does not begin or end
      with a blank; it may be missing. */
  predicate ProperParameter(w: Written) {
    && Blank(w.before) && Blank(w.after) && Proper(w.core) && Plain(',') !in w.core
    && (w.core != [] ==> var t := Render(w.core); t != "" && !Space(t[0]) && !Space(t[|t| - 1]))
  }

  predicate ProperList(ws: seq<Written>) {
    forall i :: 0 <= i < |ws| ==> ProperParameter(ws[i])
  }

  /** The parameters as they stand in the source, with commas between them. */
  function Listing(ws: seq<Written>): string {
    if ws == [] then ""
    else if |ws| == 1 then ws[0].Text()
    else Listing(ws[..|ws| - 1]) + "," + ws[|ws| - 1].Text()
  }

  /** The parameters that are there. */
  function Cores(ws: seq<Written>): seq<string> {
    if ws == [] then [] else
    Cores(ws[..|ws| - 1]) + (if ws[|ws| - 1].core == [] then [] else [Render(ws[|ws| - 1].core)])
  }

  /** `text[a..e + 1]` is a parenthesized group. */
  predicate GroupAt(text: string, a: nat, e: nat, inner: seq<Piece>) {
    a < e < |text| && Proper(inner) && text[a] == '(' && text[a + 1..e] == Render(inner) && text[e] == ')'
  }
}
