/**
  Tokens of the statement language: the twelve token categories, the token record,
  the keyword table and the one-character token table.
*/
module Tokens {
  import opened Results
  import opened Chars

  datatype Category =
    | Eof          // end of file
    | Print        // the keyword `print`
    | UnsignedInt  // a run of digits
    | Name         // an identifier that is not a keyword
    | AssignOp     // `=`
    | LeftParen    // `(`
    | RightParen   // `)`
    | Plus         // `+`
    | Minus        // `-`
    | Times        // `*`
    | Newline      // a newline ending a non-blank line
    | Error        // a character that starts no token

  /** A token: 1-based line and column of its first character, its category and its text. */
  datatype Token = Token(line: nat, column: nat, category: Category, lexeme: string)

  /** The fixed text of the categories whose lexeme never varies. */
  function Spelling(cat: Category): (r: Option<string>)
    ensures r.None? <==> cat in {UnsignedInt, Name, Error}
  {
    match cat
    case Eof => Some("")
    case Print => Some("print")
    case AssignOp => Some("=")
    case LeftParen => Some("(")
    case RightParen => Some(")")
    case Plus => Some("+")
    case Minus => Some("-")
    case Times => Some("*")
    case Newline => Some("\n")
    case _ => None
  }

  /** The keyword table: `print` is the only keyword. */
  function Keyword(lexeme: string): (r: Option<Category>)
    ensures r.Some? ==> Spelling(r.value) == Some(lexeme)
    ensures r.Some? <==> lexeme == "print"
  {
    if lexeme == "print" then Some(Print) else None
  }

  /** The category of a maximal letter/digit/underscore run: a keyword's category, else `Name`. */
  function WordCategory(lexeme: string): (r: Category)
    ensures r == Print <==> lexeme == "print"
    ensures r != Print ==> r == Name
  {
    match Keyword(lexeme)
    case Some(cat) => cat
    case None => Name
  }

  /** The one-character token table, including the end sentinel, which maps to `Eof`. */
  function SmallToken(ch: Ch): (r: Option<Category>)
    ensures r.Some? ==> Spelling(r.value) == Some(ChText(ch))
    ensures r == Some(Eof) <==> ch == EndCh
  {
    match ch
    case EndCh => Some(Eof)
    case Char(c) =>
      if c == '=' then Some(AssignOp)
      else if c == '(' then Some(LeftParen)
      else if c == ')' then Some(RightParen)
      else if c == '+' then Some(Plus)
      else if c == '-' then Some(Minus)
      else if c == '*' then Some(Times)
      else if c == '\n' then Some(Newline)
      else None
  }

  /** Every fixed-text category other than `Print` is in the one-character table under its own spelling. */
  lemma SmallTokenCoversSpellings(cat: Category, ch: Ch)
    requires cat != Print && Spelling(cat) == Some(ChText(ch))
    ensures SmallToken(ch) == Some(cat)
  {
  }

  /** The category of a token agrees with the characters of its lexeme. */
  predicate Classified(t: Token) {
    match t.category
    case UnsignedInt =>
      |t.lexeme| > 0 && forall i :: 0 <= i < |t.lexeme| ==> IsDigit(t.lexeme[i])
    case Name =>
      && |t.lexeme| > 0
      && IsWordStart(t.lexeme[0])
      && (forall i :: 0 <= i < |t.lexeme| ==> IsWordChar(t.lexeme[i]))
      && Keyword(t.lexeme).None?
    case Error => false
    case _ => Spelling(t.category) == Some(t.lexeme)
  }

  /** A token list ending in exactly one `Eof` token, which is last. */
  predicate EofTerminated(ts: seq<Token>) {
    && |ts| > 0
    && ts[|ts| - 1].category == Eof
    && forall i :: 0 <= i < |ts| - 1 ==> ts[i].category != Eof
  }

  /** The category sequence of a token list. */
  function Categories(ts: seq<Token>): (cs: seq<Category>)
    ensures |cs| == |ts|
    ensures forall i :: 0 <= i < |ts| ==> cs[i] == ts[i].category
  {
    seq(|ts|, i requires 0 <= i < |ts| => ts[i].category)
  }

  /** All lexemes of a token list, concatenated in order. */
  function Lexemes(ts: seq<Token>): string
  {
    if |ts| == 0 then "" else ts[0].lexeme + Lexemes(ts[1..])
  }
}
