/**
  The program as a whole: the source gets a final newline, the scanner turns it into
  tokens, and the parser runs only when scanning succeeded. The first error ends the run.
*/
module FrontEnd {
  import opened Results
  import opened Chars
  import opened Tokens
  import opened Source
  import opened Scanner
  import opened Parser
  import opened Grammar
  import ScanProperties
  import ParserCorrect

  /** Why a run stops: the source is empty (the final-newline fix-up indexes its last
      character), a character starts no token, or the tokens do not form a program. */
  datatype FrontEndError = EmptySource | Lexical(scan: ScanError) | Syntax(parse: ParseError)

  /** The source as the program scans it: a newline is appended unless it already ends
      with one. */
  function WithFinalNewline(src: string): (r: string)
    requires |src| > 0
    ensures |r| > 0 && r[|r| - 1] == '\n'
    ensures |r| == if src[|src| - 1] == '\n' then |src| else |src| + 1
    ensures r[..|src|] == src
  {
    if src[|src| - 1] != '\n' then src + "\n" else src
  }

  /** Scanning then parsing an already fixed-up source. On success, the token list. */
  function Check(src: string): (r: Result<seq<Token>, FrontEndError>)
    ensures r.Ok? ==> Tokenize(src) == Ok(r.value)
    ensures r.Ok? ==> EofTerminated(r.value)
    ensures r.Err? ==> r.error != EmptySource && r.error != Syntax(UnexpectedEnd)
    ensures Tokenize(src).Err? ==> r == Err(Lexical(Tokenize(src).error))
  {
    match Tokenize(src)
    case Err(e) => Err(Lexical(e))
    case Ok(ts) =>
      match Parse(ts)
      case Err(e) => Err(Syntax(e))
      case Ok(_) => Ok(ts)
  }

  /** A whole run on the text read from the input file. */
  function Run(src: string): (r: Result<seq<Token>, FrontEndError>)
    ensures r == Err(EmptySource) <==> src == ""
    ensures src != "" ==> r == Check(WithFinalNewline(src))
  {
    if src == "" then Err(EmptySource) else Check(WithFinalNewline(src))
  }

  /** A source is accepted exactly when every character can start a token and the token
      categories form a `program`; scan errors take precedence over syntax errors. */
  lemma CheckDecides(src: string)
    ensures Check(src).Ok? <==>
      && (forall j :: 0 <= j < |src| ==> !StartsNoToken(src[j]))
      && Tokenize(src).Ok?
      && IsProgram(Categories(Tokenize(src).value))
    ensures Check(src).Err? && Check(src).error.Lexical? <==>
      exists j :: 0 <= j < |src| && StartsNoToken(src[j])
  {
    ScanProperties.TokenizeFailsAtFirstInvalid(src);
    if Tokenize(src).Ok? {
      ParserCorrect.ParseAcceptsPrograms(Tokenize(src).value);
    }
  }

  /** On an accepted source the tokens spell out the source's significant characters. */
  lemma CheckRoundTrip(src: string)
    ensures Check(src).Ok? ==> Lexemes(Check(src).value) == ScanProperties.Significant(src)
  {
    ScanProperties.TokenizeRoundTrip(src);
  }

  /** A source of whitespace only, a lone newline among them, is an empty program and is
      accepted. */
  lemma BlankSourceAccepted(src: string)
    requires forall j :: 0 <= j < |src| ==> IsSpace(src[j])
    ensures Check(src) == Ok([Token(LineOf(src, |src|), 1, Eof, "")])
  {
    ScanProperties.WhitespaceSourceIsEof(src);
  }

  /** The empty input file is refused; one holding only a newline is accepted. */
  lemma RunOnBlankInputs()
    ensures Run("") == Err(EmptySource)
    ensures Run("\n").Ok?
  {
    BlankSourceAccepted("\n");
  }

  // Parses of the token lists the scanner produces for some sample lines.

  const AssignmentSumTokens: seq<Token> :=
    [Token(1, 1, Name, "x"), Token(1, 3, AssignOp, "="), Token(1, 5, UnsignedInt, "1"),
     Token(1, 7, Plus, "+"), Token(1, 9, UnsignedInt, "2"), Token(1, 10, Newline, "\n"),
     Token(2, 1, Eof, "")]

  const PrintSumTokens: seq<Token> :=
    [Token(1, 1, Print, "print"), Token(1, 6, LeftParen, "("), Token(1, 7, UnsignedInt, "1"),
     Token(1, 8, Plus, "+"), Token(1, 9, UnsignedInt, "2"), Token(1, 10, RightParen, ")"),
     Token(1, 11, Newline, "\n"), Token(2, 1, Eof, "")]

  const PrintWithoutParenTokens: seq<Token> :=
    [Token(1, 1, Print, "print"), Token(1, 7, UnsignedInt, "1"), Token(1, 8, RightParen, ")"),
     Token(1, 9, Newline, "\n"), Token(2, 1, Eof, "")]

  const MissingOperandTokens: seq<Token> :=
    [Token(1, 1, Name, "x"), Token(1, 3, AssignOp, "="), Token(1, 5, Plus, "+"),
     Token(1, 6, Newline, "\n"), Token(2, 1, Eof, "")]

  const BinaryMinusTokens: seq<Token> :=
    [Token(1, 1, Name, "x"), Token(1, 3, AssignOp, "="), Token(1, 5, UnsignedInt, "1"),
     Token(1, 7, Minus, "-"), Token(1, 9, UnsignedInt, "2"), Token(1, 10, Newline, "\n"),
     Token(2, 1, Eof, "")]

  const NestedSignsTokens: seq<Token> :=
    [Token(1, 1, Name, "x"), Token(1, 3, AssignOp, "="), Token(1, 5, Minus, "-"),
     Token(1, 6, Minus, "-"), Token(1, 7, UnsignedInt, "5"), Token(1, 8, Newline, "\n"),
     Token(2, 1, Eof, "")]

  /** `x = 1 + 2` is accepted. */
  lemma AssignmentSumAccepted()
    ensures Parse(AssignmentSumTokens) == Ok(6)
  {
    var ts := AssignmentSumTokens;
    assert ParseTerm(ts, 2) == Ok(3);
    assert ParseTerm(ts, 4) == Ok(5);
    assert ParseExpr(ts, 2) == Ok(5);
    assert ParseStmt(ts, 0) == Ok(6);
  }

  /** `print(1+2)` is accepted. */
  lemma PrintSumAccepted()
    ensures Parse(PrintSumTokens) == Ok(7)
  {
    var ts := PrintSumTokens;
    assert ParseTerm(ts, 2) == Ok(3);
    assert ParseTerm(ts, 4) == Ok(5);
    assert ParseExpr(ts, 2) == Ok(5);
    assert ParseStmt(ts, 0) == Ok(7);
  }

  /** `print 1)` fails on the `1`, where a left parenthesis was expected. */
  lemma PrintWithoutParenRejected()
    ensures Parse(PrintWithoutParenTokens) == Err(Expecting(Category(LeftParen), Token(1, 7, UnsignedInt, "1")))
  {
  }

  /** `x = +` fails on the newline, where a factor was expected after the unary plus. */
  lemma MissingOperandRejected()
    ensures Parse(MissingOperandTokens) == Err(Expecting(Factor, Token(1, 6, Newline, "\n")))
  {
  }

  /** `x = 1 - 2` fails on the minus: binary minus is not part of `expr`, so the statement
      is complete after `1` and a newline is expected there. */
  lemma BinaryMinusRejected()
    ensures Parse(BinaryMinusTokens) == Err(Expecting(Category(Newline), Token(1, 7, Minus, "-")))
  {
    var ts := BinaryMinusTokens;
    assert ParseExpr(ts, 2) == Ok(3);
  }

  /** `x = --5` is accepted: signs nest in `factor`. */
  lemma NestedSignsAccepted()
    ensures Parse(NestedSignsTokens) == Ok(6)
  {
    var ts := NestedSignsTokens;
    assert ParseFactor(ts, 2) == Ok(5);
    assert ParseExpr(ts, 2) == Ok(5);
    assert ParseStmt(ts, 0) == Ok(6);
  }
}
