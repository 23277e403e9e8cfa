/**
  The source reader of the scanner (`getchar`): the reading position with line/column
  bookkeeping and the blank-line rule, plus the same information stated in terms of
  positions in the source text.
*/
module Source {
  import opened Chars

  /** The reader's state: next index into the source, line and column of the character
      last returned, the raw character last read, and whether the current line has so far
      held only whitespace. */
  datatype ScanState = ScanState(index: nat, line: nat, column: nat, prevchar: Ch, blankline: bool)

  /** The state before the first read: as if a newline had just been read. */
  const Start := ScanState(0, 0, 0, Char('\n'), true)

  /** Reads the next character. A newline read before moves to the next line; at the end of
      the source the sentinel is returned with column 1 and the index stays put; a newline
      ending a line that held only whitespace is returned as a space. */
  function GetChar(src: string, st: ScanState): (r: (ScanState, Ch))
    // Moving on: one character further while input remains; at the end, the sentinel in
    // column 1 without moving.
    ensures st.index < |src| ==> r.0.index == st.index + 1 && r.0.prevchar == Char(src[st.index])
    ensures st.index >= |src| ==> r.0.index == st.index && r.1 == EndCh && r.0.prevchar == EndCh && r.0.column == 1
    // A new line starts exactly after a newline was read, and the column restarts there.
    ensures r.0.line == if st.prevchar == Char('\n') then st.line + 1 else st.line
    ensures st.index < |src| ==> r.0.column == if st.prevchar == Char('\n') then 1 else st.column + 1
    // The line stays blank while only whitespace is read on it.
    ensures st.index < |src| ==>
      (r.0.blankline <==> (st.prevchar == Char('\n') || st.blankline) && IsSpace(src[st.index]))
    // Characters come back as read, except that a newline ending a blank line reads as a space.
    ensures st.index < |src| && src[st.index] != '\n' ==> r.1 == Char(src[st.index])
    ensures st.index < |src| && src[st.index] == '\n' ==>
      (r.1 == Char(' ') <==> st.prevchar == Char('\n') || st.blankline)
    ensures st.index < |src| && src[st.index] == '\n' ==> r.1 in {Char(' '), Char('\n')}
  {
    var newLine := st.prevchar == Char('\n');
    var line := if newLine then st.line + 1 else st.line;
    var column := if newLine then 0 else st.column;
    var blank := if newLine then true else st.blankline;
    if st.index >= |src| then
      (ScanState(st.index, line, 1, EndCh, blank), EndCh)
    else
      var c := src[st.index];
      var blank' := blank && IsSpace(c);
      (ScanState(st.index + 1, line, column + 1, Char(c), blank'),
       if c == '\n' && blank' then Char(' ') else Char(c))
  }

  /** The 1-based line of position `k`: one more than the newlines before it. */
  function LineOf(src: string, k: nat): (r: nat)
    requires k <= |src|
    ensures r >= 1
  {
    if k == 0 then 1 else LineOf(src, k - 1) + (if src[k - 1] == '\n' then 1 else 0)
  }

  /** The 1-based column of position `k`: its distance from the start of its line, plus one. */
  function ColOf(src: string, k: nat): (r: nat)
    requires k <= |src|
    ensures 1 <= r <= k + 1
  {
    if k == 0 then 1 else if src[k - 1] == '\n' then 1 else ColOf(src, k - 1) + 1
  }

  /** Whether every character of position `k`'s line before `k` is whitespace. */
  predicate BlankBefore(src: string, k: nat)
    requires k <= |src|
  {
    if k == 0 then true else if src[k - 1] == '\n' then true else BlankBefore(src, k - 1) && IsSpace(src[k - 1])
  }

  /** The character the reader hands out for position `k`: the newline of a blank line becomes a space. */
  function Shown(src: string, k: nat): (c: char)
    requires k < |src|
    ensures c == src[k] || (src[k] == '\n' && c == ' ')
  {
    if src[k] == '\n' && BlankBefore(src, k) then ' ' else src[k]
  }

  /** The reader's state after reading the first `k` characters. */
  function StateAt(src: string, k: nat): (st: ScanState)
    requires k <= |src|
    ensures st.index == k
  {
    if k == 0 then Start
    else ScanState(k, LineOf(src, k - 1), ColOf(src, k - 1), Char(src[k - 1]),
                   BlankBefore(src, k - 1) && IsSpace(src[k - 1]))
  }

  /** The reader's state once it has returned the end sentinel. */
  function EndState(src: string): (st: ScanState)
  {
    GetChar(src, StateAt(src, |src|)).0
  }

  /** The reader's (state, current character) when the current character is the one at
      position `k`, or the sentinel when `k` is the end. */
  function Cursor(src: string, k: nat): (r: (ScanState, Ch))
    requires k <= |src|
    ensures r.0.index == if k < |src| then k + 1 else |src|
    ensures r.1 == EndCh <==> k == |src|
  {
    if k < |src| then (StateAt(src, k + 1), Char(Shown(src, k))) else (EndState(src), EndCh)
  }

  /** The first read from `Start` yields the character at position 0. */
  lemma GetCharFromStart(src: string)
    ensures GetChar(src, Start) == Cursor(src, 0)
  {
  }

  /** Each read moves the cursor one position on; at the end it stays at the end. Together
      with `LineOf` and `ColOf` this says that `line` grows once per newline read, blank or
      not, and that `column` restarts after each one. */
  lemma GetCharStep(src: string, k: nat)
    requires k <= |src|
    ensures GetChar(src, Cursor(src, k).0) == Cursor(src, if k < |src| then k + 1 else |src|)
  {
  }

  /** Once the source is exhausted, one read reaches a state that every later read returns
      unchanged, together with the sentinel and column 1. */
  lemma ExhaustedReadIsFixedPoint(src: string, st: ScanState)
    requires st.index >= |src|
    ensures var (st', ch) := GetChar(src, st);
      ch == EndCh && st'.column == 1 && st'.index == st.index && GetChar(src, st') == (st', EndCh)
  {
  }

  /** The cursor's line and column are those of its position; at the end, the line after
      the last newline and column 1. */
  lemma CursorPosition(src: string, k: nat)
    requires k <= |src|
    ensures Cursor(src, k).0.line == LineOf(src, k)
    ensures Cursor(src, k).0.column == if k < |src| then ColOf(src, k) else 1
  {
  }
}
