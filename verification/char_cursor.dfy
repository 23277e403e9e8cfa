/**
  The input cursor shared by the two single-character recognisers: the token is the
  character at the cursor, or the end sentinel once the cursor is past the input. The
  input string stands for the command-line argument; a missing argument reads like the
  empty string.
*/
module CharCursor {
  import opened Results
  import opened Chars

  /** The token after the cursor moved to index `i` (`advance` moves it one step). */
  function Peek(s: string, i: nat): (ch: Ch)
    ensures ch == EndCh <==> i >= |s|
    ensures ch.Char? ==> ch.c == s[i]
  {
    if i < |s| then Char(s[i]) else EndCh
  }

  /** consume: moves past the current character if it is `x`; otherwise fails with
      `missing` (each recogniser's "expecting x") without moving. */
  function Consume<E>(s: string, i: nat, x: char, missing: E): (r: Result<nat, E>)
    ensures r.Ok? <==> i < |s| && s[i] == x
    ensures r.Ok? ==> r.value == i + 1
    ensures r.Err? ==> r.error == missing
  {
    if Peek(s, i) == Char(x) then Ok(i + 1) else Err(missing)
  }

  /** Once past the end, every further step reads the sentinel again. */
  lemma PastEndStaysEnd(s: string, i: nat, j: nat)
    requires |s| <= i <= j
    ensures Peek(s, i) == EndCh && Peek(s, j) == EndCh
  {
  }

  /** How a recogniser run ends: the whole input derived from the start symbol; a
      derivation followed by leftover input (reported, but not an error); or an error. */
  datatype Verdict<E> = Accepted | Garbage | Failed(error: E)

  /** `n` copies of `c`. */
  function Repeat(c: char, n: nat): (r: string)
    ensures |r| == n
    ensures forall k :: 0 <= k < n ==> r[k] == c
  {
    seq(n, _ => c)
  }

  /** The length of the run of `c` that starts the string. */
  function LeadingRun(s: string, c: char): (n: nat)
    ensures n <= |s|
    ensures forall k :: 0 <= k < n ==> s[k] == c
    ensures n < |s| ==> s[n] != c
  {
    if |s| > 0 && s[0] == c then 1 + LeadingRun(s[1..], c) else 0
  }
}
