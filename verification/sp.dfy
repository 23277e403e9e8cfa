/**
  The recogniser of sp.py for the grammar
    S -> A C,  A -> 'a' 'b',  C -> 'c' C | 'd'
  which accepts exactly "ab" c^k "d" for k >= 0.
*/
module Sp {
  import opened Results
  import opened Chars
  import opened CharCursor

  /** `Expecting(x)` is raised by consume, `ExpectingCOrD` by C. */
  datatype SpError = Expecting(x: char) | ExpectingCOrD

  /** A -> 'a' 'b' */
  function A(s: string, i: nat): (r: Result<nat, SpError>)
    ensures r.Ok? <==> i + 2 <= |s| && s[i..i + 2] == "ab"
    ensures r.Ok? ==> r.value == i + 2
    ensures r.Err? ==> r.error == Expecting(if i < |s| && s[i] == 'a' then 'b' else 'a')
  {
    var j :- Consume(s, i, 'a', Expecting('a'));
    Consume(s, j, 'b', Expecting('b'))
  }

  /** C -> 'c' C | 'd': each call consumes one character and stops at 'd'. */
  function C(s: string, i: nat): (r: Result<nat, SpError>)
    requires i <= |s|
    ensures r.Ok? ==> i < r.value <= |s| && s[r.value - 1] == 'd'
    ensures r.Ok? ==> forall k :: i <= k < r.value - 1 ==> s[k] == 'c'
    ensures r.Err? ==> r.error == ExpectingCOrD
    decreases |s| - i
  {
    if Peek(s, i) == Char('c') then C(s, i + 1)
    else if Peek(s, i) == Char('d') then Ok(i + 1)
    else Err(ExpectingCOrD)
  }

  /** S -> A C */
  function S(s: string, i: nat): (r: Result<nat, SpError>)
    requires i <= |s|
    ensures r.Ok? ==> i + 3 <= r.value <= |s|
  {
    var j :- A(s, i);
    C(s, j)
  }

  /** The parser: S from the first character, then a check for leftover input. */
  function Recognise(s: string): (v: Verdict<SpError>)
    ensures v == Accepted ==> |s| >= 3 && s[..2] == "ab" && s[|s| - 1] == 'd'
  {
    match S(s, 0)
    case Err(e) => Failed(e)
    case Ok(j) => if Peek(s, j) != EndCh then Garbage else Accepted
  }

  /** The outcome of every input, in closed form over the run of 'c' after "ab". */
  function Expected(s: string): Verdict<SpError> {
    if |s| == 0 || s[0] != 'a' then Failed(Expecting('a'))
    else if |s| == 1 || s[1] != 'b' then Failed(Expecting('b'))
    else
      var k := LeadingRun(s[2..], 'c');
      if 2 + k == |s| || s[2 + k] != 'd' then Failed(ExpectingCOrD)
      else if 3 + k == |s| then Accepted
      else Garbage
  }

  /** From `i`, C consumes the run of 'c' there and the 'd' after it, or fails. */
  lemma {:induction false} CConsumesRun(s: string, i: nat)
    requires i <= |s|
    ensures var k := LeadingRun(s[i..], 'c');
      C(s, i) == if i + k < |s| && s[i + k] == 'd' then Ok(i + k + 1) else Err(ExpectingCOrD)
    decreases |s| - i
  {
    if i < |s| && s[i] == 'c' {
      CConsumesRun(s, i + 1);
      assert s[i..][1..] == s[i + 1..];
    }
  }

  /** Every input gets the closed-form outcome: 'a' then 'b' must come first, then any
      number of 'c' and a 'd'; leftover input is reported as garbage, not as an error. */
  lemma RecogniseOutcome(s: string)
    ensures Recognise(s) == Expected(s)
  {
    if |s| >= 2 && s[0] == 'a' && s[1] == 'b' {
      CConsumesRun(s, 2);
    }
  }

  /** The inputs accepted cleanly are exactly "ab" c^k "d" with k >= 0. */
  lemma AcceptedLanguage(s: string)
    ensures Recognise(s) == Accepted <==> exists k :: 0 <= k && s == "ab" + Repeat('c', k) + "d"
  {
    RecogniseOutcome(s);
    if Recognise(s) == Accepted {
      var k := LeadingRun(s[2..], 'c');
      assert s == "ab" + Repeat('c', k) + "d";
    }
    if k :| 0 <= k && s == "ab" + Repeat('c', k) + "d" {
      var t := s[2..];
      assert t == Repeat('c', k) + "d";
      assert t[k] == 'd' && forall j :: 0 <= j < k ==> t[j] == 'c';
      assert LeadingRun(t, 'c') == k;
    }
  }
}
