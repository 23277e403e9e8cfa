/**
  The scanner (`tokenizer`): skips non-newline whitespace, classifies the next run of
  characters, appends the token and stops after the `Eof` token or at the first
  character that starts no token.
*/
module Scanner {
  import opened Results
  import opened Chars
  import opened Tokens
  import opened Source

  /** The scan fails on a character that starts no token; the error carries that token. */
  datatype ScanError = InvalidToken(token: Token)

  /** The two multi-character token shapes: digit runs and name runs. */
  datatype RunKind = Digits | Word

  predicate InRunChar(kind: RunKind, c: char) {
    match kind
    case Digits => IsDigit(c)
    case Word => IsWordChar(c)
  }

  predicate InRun(kind: RunKind, ch: Ch) {
    ch.Char? && InRunChar(kind, ch.c)
  }

  /** A character that starts no token: not whitespace, not a digit, not a name start and
      not in the one-character table. */
  predicate StartsNoToken(c: char) {
    !IsSpace(c) && !IsDigit(c) && !IsWordStart(c) && SmallToken(Char(c)).None?
  }

  /** Whitespace the scanner skips before a token: any whitespace but a newline. */
  predicate Skippable(ch: Ch) {
    ch.Char? && ch.c != '\n' && IsSpace(ch.c)
  }

  /** Unread input, counting a pending character as half a position: every read from a
      pending character lowers it. */
  function Measure(src: string, st: ScanState, cur: Ch): nat
    requires st.index <= |src|
  {
    2 * (|src| - st.index) + (if cur.Char? then 1 else 0)
  }

  /** Skips whitespace other than newlines. */
  function SkipSpaces(src: string, st: ScanState, cur: Ch): (r: (ScanState, Ch))
    requires st.index <= |src|
    ensures r.0.index <= |src|
    ensures !Skippable(r.1)
    ensures Measure(src, r.0, r.1) <= Measure(src, st, cur)
    decreases Measure(src, st, cur)
  {
    if Skippable(cur) then
      var (st', cur') := GetChar(src, st);
      SkipSpaces(src, st', cur')
    else
      (st, cur)
  }

  /** Accumulates a maximal run of characters of one kind, starting with the pending one. */
  function ScanRun(src: string, st: ScanState, cur: Ch, kind: RunKind): (r: (string, ScanState, Ch))
    requires st.index <= |src|
    requires InRun(kind, cur)
    ensures r.1.index <= |src|
    ensures |r.0| > 0 && r.0[0] == cur.c
    ensures forall i :: 0 <= i < |r.0| ==> InRunChar(kind, r.0[i])
    ensures !InRun(kind, r.2)
    ensures Measure(src, r.1, r.2) < Measure(src, st, cur)
    decreases Measure(src, st, cur)
  {
    var (st', cur') := GetChar(src, st);
    if InRun(kind, cur') then
      var (rest, st'', cur'') := ScanRun(src, st', cur', kind);
      ([cur.c] + rest, st'', cur'')
    else
      ([cur.c], st', cur')
  }

  /** Builds the token that starts at the pending character, positioned at the reader's
      current line and column. */
  function ScanToken(src: string, st: ScanState, cur: Ch): (r: Result<(Token, ScanState, Ch), ScanError>)
    requires st.index <= |src|
    requires !Skippable(cur)
    ensures r.Ok? ==> r.value.1.index <= |src|
    ensures r.Ok? ==> Classified(r.value.0)
    ensures r.Ok? ==> r.value.0.line == st.line && r.value.0.column == st.column
    ensures r.Ok? && r.value.0.category != Eof ==> Measure(src, r.value.1, r.value.2) < Measure(src, st, cur)
    ensures r.Ok? ==> (r.value.0.category == Eof <==> cur == EndCh)
    ensures r.Err? <==> cur.Char? && StartsNoToken(cur.c)
    ensures r.Err? ==> r.error.token == Token(st.line, st.column, Error, [cur.c])
  {
    if cur.Char? && IsDigit(cur.c) then
      var (lexeme, st', cur') := ScanRun(src, st, cur, Digits);
      Ok((Token(st.line, st.column, UnsignedInt, lexeme), st', cur'))
    else if cur.Char? && IsWordStart(cur.c) then
      var (lexeme, st', cur') := ScanRun(src, st, cur, Word);
      Ok((Token(st.line, st.column, WordCategory(lexeme), lexeme), st', cur'))
    else
      match SmallToken(cur)
      case Some(cat) =>
        var (st', cur') := GetChar(src, st);
        Ok((Token(st.line, st.column, cat, ChText(cur)), st', cur'))
      case None =>
        Err(InvalidToken(Token(st.line, st.column, Error, [cur.c])))
  }

  /** Scans the rest of the source: one token per round, stopping after `Eof`. */
  function ScanFrom(src: string, st: ScanState, cur: Ch): (r: Result<seq<Token>, ScanError>)
    requires st.index <= |src|
    ensures r.Ok? ==> EofTerminated(r.value)
    ensures r.Ok? ==> forall i :: 0 <= i < |r.value| ==> Classified(r.value[i])
    decreases Measure(src, st, cur)
  {
    var (st1, cur1) := SkipSpaces(src, st, cur);
    var (token, st2, cur2) :- ScanToken(src, st1, cur1);
    if token.category == Eof then
      Ok([token])
    else
      var rest :- ScanFrom(src, st2, cur2);
      Ok([token] + rest)
  }

  /** Scans a whole source text, starting from a primed space. */
  function Tokenize(src: string): (r: Result<seq<Token>, ScanError>)
    ensures r.Ok? ==> EofTerminated(r.value)
    ensures r.Ok? ==> forall i :: 0 <= i < |r.value| ==> Classified(r.value[i])
  {
    ScanFrom(src, Start, Char(' '))
  }
}
