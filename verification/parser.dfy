/**
  The predictive recursive-descent recogniser of the statement language: one function
  per nonterminal over the token list and a cursor index, lookahead of one token, the
  first mismatch ends the parse.
*/
module Parser {
  import opened Results
  import opened Tokens

  /** What the parser was looking for when it stopped. */
  datatype Expectation = Category(cat: Category) | Statement | Factor | EndOfFile

  /** `UnexpectedEnd`: the cursor would move past the last token. `Expecting`: the current
      token (the one a diagnostic reports) does not fit. */
  datatype ParseError = UnexpectedEnd | Expecting(what: Expectation, found: Token)

  /** Moves the cursor to the next token; the cursor starts at -1, before the first token. */
  function Advance(ts: seq<Token>, i: int): (r: Result<nat, ParseError>)
    requires -1 <= i < |ts|
    ensures r.Ok? <==> i + 1 < |ts|
    ensures r.Ok? ==> r.value == i + 1
    ensures r.Err? ==> r.error == UnexpectedEnd
  {
    if i + 1 >= |ts| then Err(UnexpectedEnd) else Ok(i + 1)
  }

  /** Moves past the current token if it has category `cat`; otherwise fails on it. */
  function Consume(ts: seq<Token>, i: nat, cat: Category): (r: Result<nat, ParseError>)
    requires i < |ts|
    ensures r.Ok? <==> ts[i].category == cat && i + 1 < |ts|
    ensures r.Ok? ==> r.value == i + 1
    ensures ts[i].category != cat ==> r == Err(Expecting(Category(cat), ts[i]))
  {
    if ts[i].category == cat then Advance(ts, i) else Err(Expecting(Category(cat), ts[i]))
  }

  /** The token list ends with `Eof`. */
  predicate EndsWithEof(ts: seq<Token>) {
    |ts| > 0 && ts[|ts| - 1].category == Eof
  }

  /** factor -> (PLUS | MINUS) factor | UNSIGNEDINT | NAME | LEFTPAREN expr RIGHTPAREN */
  function ParseFactor(ts: seq<Token>, i: nat): (r: Result<nat, ParseError>)
    requires i < |ts|
    ensures r.Ok? ==> i < r.value < |ts|
    ensures EndsWithEof(ts) ==> r != Err(UnexpectedEnd)
    decreases |ts| - i, 0
  {
    var cat := ts[i].category;
    if cat == Plus || cat == Minus then
      var j :- Advance(ts, i);
      ParseFactor(ts, j)
    else if cat == UnsignedInt || cat == Name then
      Advance(ts, i)
    else if cat == LeftParen then
      var j :- Advance(ts, i);
      var k :- ParseExpr(ts, j);
      Consume(ts, k, RightParen)
    else
      Err(Expecting(Factor, ts[i]))
  }

  /** The loop of term: (TIMES factor)* */
  function ParseTermTail(ts: seq<Token>, i: nat): (r: Result<nat, ParseError>)
    requires i < |ts|
    ensures r.Ok? ==> i <= r.value < |ts|
    ensures r.Ok? ==> ts[r.value].category != Times
    ensures EndsWithEof(ts) ==> r != Err(UnexpectedEnd)
    decreases |ts| - i, 1
  {
    if ts[i].category == Times then
      var j :- Advance(ts, i);
      var k :- ParseFactor(ts, j);
      ParseTermTail(ts, k)
    else
      Ok(i)
  }

  /** term -> factor (TIMES factor)* */
  function ParseTerm(ts: seq<Token>, i: nat): (r: Result<nat, ParseError>)
    requires i < |ts|
    ensures r.Ok? ==> i < r.value < |ts|
    ensures r.Ok? ==> ts[r.value].category != Times
    ensures EndsWithEof(ts) ==> r != Err(UnexpectedEnd)
    decreases |ts| - i, 2
  {
    var j :- ParseFactor(ts, i);
    ParseTermTail(ts, j)
  }

  /** The loop of expr: (PLUS term)*. It is entered after a term, so never at a `TIMES`. */
  function ParseExprTail(ts: seq<Token>, i: nat): (r: Result<nat, ParseError>)
    requires i < |ts| && ts[i].category != Times
    ensures r.Ok? ==> i <= r.value < |ts|
    ensures r.Ok? ==> ts[r.value].category !in {Plus, Times}
    ensures EndsWithEof(ts) ==> r != Err(UnexpectedEnd)
    decreases |ts| - i, 3
  {
    if ts[i].category == Plus then
      var j :- Advance(ts, i);
      var k :- ParseTerm(ts, j);
      ParseExprTail(ts, k)
    else
      Ok(i)
  }

  /** expr -> term (PLUS term)* */
  function ParseExpr(ts: seq<Token>, i: nat): (r: Result<nat, ParseError>)
    requires i < |ts|
    ensures r.Ok? ==> i < r.value < |ts|
    ensures r.Ok? ==> ts[r.value].category !in {Plus, Times}
    ensures EndsWithEof(ts) ==> r != Err(UnexpectedEnd)
    decreases |ts| - i, 4
  {
    var j :- ParseTerm(ts, i);
    ParseExprTail(ts, j)
  }

  /** assignmentstmt -> NAME ASSIGNOP expr, entered with the cursor on NAME. */
  function ParseAssignment(ts: seq<Token>, i: nat): (r: Result<nat, ParseError>)
    requires i < |ts|
    ensures r.Ok? ==> i < r.value < |ts|
    ensures r.Ok? ==> ts[r.value].category !in {Plus, Times}
    ensures EndsWithEof(ts) && ts[i].category != Eof ==> r != Err(UnexpectedEnd)
  {
    var j :- Advance(ts, i);
    var k :- Consume(ts, j, AssignOp);
    ParseExpr(ts, k)
  }

  /** printstmt -> PRINT LEFTPAREN expr RIGHTPAREN, entered with the cursor on PRINT. */
  function ParsePrint(ts: seq<Token>, i: nat): (r: Result<nat, ParseError>)
    requires i < |ts|
    ensures r.Ok? ==> i < r.value < |ts|
    ensures EndsWithEof(ts) && ts[i].category != Eof ==> r != Err(UnexpectedEnd)
  {
    var j :- Advance(ts, i);
    var k :- Consume(ts, j, LeftParen);
    var m :- ParseExpr(ts, k);
    Consume(ts, m, RightParen)
  }

  /** simplestmt -> assignmentstmt | printstmt, chosen by the current token. */
  function ParseSimpleStmt(ts: seq<Token>, i: nat): (r: Result<nat, ParseError>)
    requires i < |ts|
    ensures r.Ok? ==> i < r.value < |ts|
    ensures ts[i].category !in {Name, Print} ==> r == Err(Expecting(Statement, ts[i]))
    ensures EndsWithEof(ts) ==> r != Err(UnexpectedEnd)
  {
    if ts[i].category == Name then ParseAssignment(ts, i)
    else if ts[i].category == Print then ParsePrint(ts, i)
    else Err(Expecting(Statement, ts[i]))
  }

  /** stmt -> simplestmt NEWLINE */
  function ParseStmt(ts: seq<Token>, i: nat): (r: Result<nat, ParseError>)
    requires i < |ts|
    ensures r.Ok? ==> i < r.value < |ts|
    ensures EndsWithEof(ts) ==> r != Err(UnexpectedEnd)
  {
    var j :- ParseSimpleStmt(ts, i);
    Consume(ts, j, Newline)
  }

  /** program -> stmt* EOF: statements while the current token can start one, then `Eof`.
      Succeeds with the position of that `Eof`. */
  function ParseProgram(ts: seq<Token>, i: nat): (r: Result<nat, ParseError>)
    requires i < |ts|
    ensures r.Ok? ==> i <= r.value < |ts| && ts[r.value].category == Eof
    ensures EndsWithEof(ts) ==> r != Err(UnexpectedEnd)
    decreases |ts| - i
  {
    if ts[i].category in {Name, Print} then
      var j :- ParseStmt(ts, i);
      ParseProgram(ts, j)
    else if ts[i].category != Eof then
      Err(Expecting(EndOfFile, ts[i]))
    else
      Ok(i)
  }

  /** The parser: moves the cursor from before the first token onto it, then parses a program. */
  function Parse(ts: seq<Token>): (r: Result<nat, ParseError>)
    ensures r.Ok? ==> r.value < |ts| && ts[r.value].category == Eof
    ensures |ts| == 0 ==> r == Err(UnexpectedEnd)
    ensures EndsWithEof(ts) ==> r != Err(UnexpectedEnd)
  {
    var i :- Advance(ts, -1);
    ParseProgram(ts, i)
  }
}
