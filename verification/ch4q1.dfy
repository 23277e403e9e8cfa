/**
  The recogniser of Chapter 4, question 1. Its header gives the grammar
  S -> 'a' S 'b' | 'c' and claims the rewrite S -> ('a')* 'c' 'b'; the code implements
  neither: it accepts exactly "c" and a^n c b for n >= 1.
*/
module Ch4Q1 {
  import opened Results
  import opened Chars
  import opened CharCursor

  /** `Expecting(x)` is raised by consume; the other three by S, B and C. */
  datatype Ch4Error = ExpectingAOrC | Expecting(x: char) | ExpectingB | ExpectingC

  /** The loop of A: steps over a run of 'a'. */
  function SkipAs(s: string, i: nat): (r: nat)
    requires i <= |s|
    ensures i <= r <= |s|
    ensures forall k :: i <= k < r ==> s[k] == 'a'
    ensures Peek(s, r) != Char('a')
    decreases |s| - i
  {
    if Peek(s, i) == Char('a') then SkipAs(s, i + 1) else i
  }

  /** A: the run of 'a', then 'c' (consumed), then B. */
  function A(s: string, i: nat): (r: Result<nat, Ch4Error>)
    requires i <= |s|
    ensures r.Ok? ==> i + 2 <= r.value <= |s| && s[r.value - 2..r.value] == "cb"
  {
    var j := SkipAs(s, i);
    var k :- Consume(s, j, 'c', Expecting('c'));
    B(s, k)
  }

  function B(s: string, i: nat): (r: Result<nat, Ch4Error>)
    ensures r.Ok? <==> i < |s| && s[i] == 'b'
    ensures r.Ok? ==> r.value == i + 1
    ensures r.Err? ==> r.error == ExpectingB
  {
    if Peek(s, i) == Char('b') then Ok(i + 1) else Err(ExpectingB)
  }

  function C(s: string, i: nat): (r: Result<nat, Ch4Error>)
    ensures r.Ok? <==> i < |s| && s[i] == 'c'
    ensures r.Ok? ==> r.value == i + 1
    ensures r.Err? ==> r.error == ExpectingC
  {
    if Peek(s, i) == Char('c') then Ok(i + 1) else Err(ExpectingC)
  }

  /** S: A on 'a', C on 'c', an error otherwise. */
  function S(s: string, i: nat): (r: Result<nat, Ch4Error>)
    requires i <= |s|
    ensures r.Ok? ==> i < r.value <= |s|
    ensures r != Err(ExpectingC)
  {
    if Peek(s, i) == Char('a') then A(s, i)
    else if Peek(s, i) == Char('c') then C(s, i)
    else Err(ExpectingAOrC)
  }

  /** The parser: S from the first character, then a check for leftover input. */
  function Recognise(s: string): (v: Verdict<Ch4Error>)
    ensures v != Failed(ExpectingC)
  {
    match S(s, 0)
    case Err(e) => Failed(e)
    case Ok(j) => if Peek(s, j) != EndCh then Garbage else Accepted
  }

  /** The outcome of every input, in closed form over the run of 'a' it starts with. */
  function Expected(s: string): Verdict<Ch4Error> {
    var n := LeadingRun(s, 'a');
    if |s| == 0 || (s[0] != 'a' && s[0] != 'c') then Failed(ExpectingAOrC)
    else if s[0] == 'c' then (if |s| == 1 then Accepted else Garbage)
    else if n == |s| || s[n] != 'c' then Failed(Expecting('c'))
    else if n + 1 == |s| || s[n + 1] != 'b' then Failed(ExpectingB)
    else if n + 2 == |s| then Accepted
    else Garbage
  }

  lemma SkipAsFromStart(s: string)
    ensures SkipAs(s, 0) == LeadingRun(s, 'a')
  {
  }

  /** Every input gets the closed-form outcome: an error for a bad first character, a
      missing 'c' after the run of 'a' or a missing 'b' after that 'c'; leftover input is
      reported as garbage, not as an error; `C`'s own error never surfaces. */
  lemma RecogniseOutcome(s: string)
    ensures Recognise(s) == Expected(s)
  {
    SkipAsFromStart(s);
  }

  /** The inputs accepted cleanly are exactly "c" and a^n c b with n >= 1. */
  lemma AcceptedLanguage(s: string)
    ensures Recognise(s) == Accepted <==> s == "c" || exists n :: 1 <= n && s == Repeat('a', n) + "cb"
  {
    RecogniseOutcome(s);
    var n := LeadingRun(s, 'a');
    if Recognise(s) == Accepted && s != "c" {
      assert s == Repeat('a', n) + "cb";
    }
    if m :| 1 <= m && s == Repeat('a', m) + "cb" {
      assert s[m] == 'c';
      assert n == m;
    }
  }

  /** The derivations of the header grammar S -> 'a' S 'b' | 'c': a^n c b^n. */
  ghost predicate InHeaderGrammar(s: string) {
    exists n :: 0 <= n && s == Repeat('a', n) + "c" + Repeat('b', n)
  }

  /** The language of the rewrite the header claims, S -> ('a')* 'c' 'b'. */
  ghost predicate InClaimedRewrite(s: string) {
    exists n :: 0 <= n && s == Repeat('a', n) + "cb"
  }

  /** "aacbb" derives from the header grammar, but the code reports garbage after "aacb". */
  lemma HeaderGrammarNotImplemented()
    ensures InHeaderGrammar("aacbb") && Recognise("aacbb") == Garbage
  {
    assert "aacbb" == Repeat('a', 2) + "c" + Repeat('b', 2);
    RecogniseOutcome("aacbb");
  }

  /** "cb" is in the claimed rewrite's language, but the code reports garbage after "c". */
  lemma ClaimedRewriteNotImplemented()
    ensures InClaimedRewrite("cb") && Recognise("cb") == Garbage
  {
    assert "cb" == Repeat('a', 0) + "cb";
  }

  /** Only C's own error is dead: consume in A still reports a missing 'c' after the run
      of 'a', with the same wording. */
  lemma MissingCAfterRunFails()
    ensures Recognise("ab") == Failed(Expecting('c'))
    ensures Recognise("a") == Failed(Expecting('c'))
  {
  }
}
