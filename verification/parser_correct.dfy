/**
  The recursive-descent parser decides the grammar: every successful parse function has
  consumed a derivation of its nonterminal (soundness), and every derivation followed by
  a token that cannot continue it is consumed exactly (completeness).
*/
module ParserCorrect {
  import opened Results
  import opened Tokens
  import opened Parser
  import opened Grammar

  // Soundness: what a parse function consumed derives from its nonterminal.

  // One step of a parse function, unfolded once so that the proofs below need not.

  lemma FactorStep(ts: seq<Token>, i: nat)
    requires i < |ts|
    ensures ParseFactor(ts, i).Ok? ==> i + 1 < |ts| && ts[i].category in {Plus, Minus, UnsignedInt, Name, LeftParen}
    ensures ts[i].category in {Plus, Minus} && i + 1 < |ts| ==> ParseFactor(ts, i) == ParseFactor(ts, i + 1)
    ensures ts[i].category in {UnsignedInt, Name} && i + 1 < |ts| ==> ParseFactor(ts, i) == Ok(i + 1)
    ensures ts[i].category == LeftParen && i + 1 < |ts| ==>
      ParseFactor(ts, i) == (var e := ParseExpr(ts, i + 1); if e.Err? then Err(e.error) else Consume(ts, e.value, RightParen))
  {
  }

  lemma {:induction false} FactorSound(ts: seq<Token>, i: nat)
    requires i < |ts|
    ensures ParseFactor(ts, i).Ok? ==> IsFactor(Categories(ts)[i..ParseFactor(ts, i).value])
    decreases |ts| - i, 0, 1
  {
    if ParseFactor(ts, i).Ok? {
      FactorSoundAt(ts, i, ParseFactor(ts, i).value);
      assert IsFactor(Categories(ts)[i..ParseFactor(ts, i).value]);
    }
  }

  /** What factor consumed up to position `k` derives from factor. */
  lemma {:induction false} FactorSoundAt(ts: seq<Token>, i: nat, k: nat)
    requires i < |ts| && ParseFactor(ts, i) == Ok(k)
    ensures IsFactor(Categories(ts)[i..k])
    decreases |ts| - i, 0, 0
  {
    FactorStep(ts, i);
    if ts[i].category in {Plus, Minus} {
      FactorSoundAt(ts, i + 1, k);
      SignedFactor(ts, i, k);
    } else if ts[i].category == LeftParen {
      ExprSound(ts, i + 1);
      ParenFactor(ts, i, k);
    } else {
      assert Categories(ts)[i..k][0] == ts[i].category;
    }
  }

  /** A sign in front of a factor ending at `k` makes a factor. */
  lemma {:induction false} SignedFactor(ts: seq<Token>, i: nat, k: nat)
    requires i < k <= |ts| && ts[i].category in {Plus, Minus} && IsFactor(Categories(ts)[i + 1..k])
    ensures IsFactor(Categories(ts)[i..k])
  {
    FactorOfSign(Categories(ts), i, k);
  }

  /** A parenthesised expression that factor consumed up to `k` makes a factor. */
  lemma {:induction false} ParenFactor(ts: seq<Token>, i: nat, k: nat)
    requires i + 1 < |ts| && ts[i].category == LeftParen && ParseExpr(ts, i + 1).Ok?
    requires IsExpr(Categories(ts)[i + 1..ParseExpr(ts, i + 1).value])
    requires Consume(ts, ParseExpr(ts, i + 1).value, RightParen) == Ok(k)
    ensures IsFactor(Categories(ts)[i..k])
  {
    FactorOfParen(Categories(ts), i, ParseExpr(ts, i + 1).value);
  }

  lemma {:induction false} TermTailSound(ts: seq<Token>, i: nat)
    requires i < |ts|
    ensures ParseTermTail(ts, i).Ok? ==> IsTermTail(Categories(ts)[i..ParseTermTail(ts, i).value])
    decreases |ts| - i, 1
  {
    var cs := Categories(ts);
    if ParseTermTail(ts, i).Ok? && cs[i] == Times {
      var k := ParseFactor(ts, i + 1).value;
      FactorSound(ts, i + 1);
      TermTailSound(ts, k);
      TermTailOf(cs, i, k, ParseTermTail(ts, i).value);
    }
  }

  lemma {:induction false} TermSound(ts: seq<Token>, i: nat)
    requires i < |ts|
    ensures ParseTerm(ts, i).Ok? ==> IsTerm(Categories(ts)[i..ParseTerm(ts, i).value])
    decreases |ts| - i, 2
  {
    if ParseTerm(ts, i).Ok? {
      var j := ParseFactor(ts, i).value;
      FactorSound(ts, i);
      TermTailSound(ts, j);
      TermOf(Categories(ts), i, j, ParseTerm(ts, i).value);
    }
  }

  lemma {:induction false} ExprTailSound(ts: seq<Token>, i: nat)
    requires i < |ts| && ts[i].category != Times
    ensures ParseExprTail(ts, i).Ok? ==> IsExprTail(Categories(ts)[i..ParseExprTail(ts, i).value])
    decreases |ts| - i, 3
  {
    var cs := Categories(ts);
    if ParseExprTail(ts, i).Ok? && cs[i] == Plus {
      var k := ParseTerm(ts, i + 1).value;
      TermSound(ts, i + 1);
      ExprTailSound(ts, k);
      ExprTailOf(cs, i, k, ParseExprTail(ts, i).value);
    }
  }

  lemma {:induction false} ExprSound(ts: seq<Token>, i: nat)
    requires i < |ts|
    ensures ParseExpr(ts, i).Ok? ==> IsExpr(Categories(ts)[i..ParseExpr(ts, i).value])
    decreases |ts| - i, 4
  {
    if ParseExpr(ts, i).Ok? {
      var j := ParseTerm(ts, i).value;
      TermSound(ts, i);
      ExprTailSound(ts, j);
      ExprOf(Categories(ts), i, j, ParseExpr(ts, i).value);
    }
  }

  lemma AssignmentStep(ts: seq<Token>, i: nat)
    requires i + 2 < |ts|
    ensures ParseAssignment(ts, i).Ok? ==> ts[i + 1].category == AssignOp
    ensures ts[i + 1].category == AssignOp ==> ParseAssignment(ts, i) == ParseExpr(ts, i + 2)
  {
  }

  lemma PrintStep(ts: seq<Token>, i: nat)
    requires i + 2 < |ts|
    ensures ParsePrint(ts, i).Ok? ==> ts[i + 1].category == LeftParen && ParseExpr(ts, i + 2).Ok?
    ensures ts[i + 1].category == LeftParen && ParseExpr(ts, i + 2).Ok? ==>
      ParsePrint(ts, i) == Consume(ts, ParseExpr(ts, i + 2).value, RightParen)
  {
  }

  lemma AssignmentSound(ts: seq<Token>, i: nat)
    requires i < |ts| && ts[i].category == Name
    ensures ParseAssignment(ts, i).Ok? && ParseAssignment(ts, i).value < |ts| - 1
            && ts[ParseAssignment(ts, i).value].category == Newline
        ==> IsStmt(Categories(ts)[i..ParseAssignment(ts, i).value + 1])
  {
    if ParseAssignment(ts, i).Ok? && ParseAssignment(ts, i).value < |ts| - 1
       && ts[ParseAssignment(ts, i).value].category == Newline {
      AssignmentSoundAt(ts, i, ParseAssignment(ts, i).value);
      assert IsStmt(Categories(ts)[i..ParseAssignment(ts, i).value + 1]);
    }
  }

  /** An assignment that ends at position `m`, followed by a newline, derives from stmt. */
  lemma AssignmentSoundAt(ts: seq<Token>, i: nat, m: nat)
    requires i < |ts| && ts[i].category == Name && ParseAssignment(ts, i) == Ok(m)
    requires m < |ts| - 1 && ts[m].category == Newline
    ensures IsStmt(Categories(ts)[i..m + 1])
  {
    assert i + 2 < |ts|;
    AssignmentStep(ts, i);
    ExprSound(ts, i + 2);
    AssignmentOf(Categories(ts), i, m);
  }

  lemma PrintSound(ts: seq<Token>, i: nat)
    requires i < |ts| && ts[i].category == Print
    ensures ParsePrint(ts, i).Ok? && ParsePrint(ts, i).value < |ts| - 1
            && ts[ParsePrint(ts, i).value].category == Newline
        ==> IsStmt(Categories(ts)[i..ParsePrint(ts, i).value + 1])
  {
    if ParsePrint(ts, i).Ok? && ParsePrint(ts, i).value < |ts| - 1
       && ts[ParsePrint(ts, i).value].category == Newline {
      PrintSoundAt(ts, i, ParsePrint(ts, i).value);
      assert IsStmt(Categories(ts)[i..ParsePrint(ts, i).value + 1]);
    }
  }

  /** A print statement that ends at position `n`, followed by a newline, derives from stmt. */
  lemma PrintSoundAt(ts: seq<Token>, i: nat, n: nat)
    requires i < |ts| && ts[i].category == Print && ParsePrint(ts, i) == Ok(n)
    requires n < |ts| - 1 && ts[n].category == Newline
    ensures IsStmt(Categories(ts)[i..n + 1])
  {
    assert i + 2 < |ts|;
    PrintStep(ts, i);
    var m := ParseExpr(ts, i + 2).value;
    ExprSound(ts, i + 2);
    PrintOf(Categories(ts), i, m);
  }

  lemma StmtSound(ts: seq<Token>, i: nat)
    requires i < |ts|
    ensures ParseStmt(ts, i).Ok? ==> IsStmt(Categories(ts)[i..ParseStmt(ts, i).value])
  {
    if ParseStmt(ts, i).Ok? {
      StmtSoundAt(ts, i, ParseSimpleStmt(ts, i).value);
      assert IsStmt(Categories(ts)[i..ParseStmt(ts, i).value]);
    }
  }

  /** A simple statement that ends at position `m`, followed by a newline, derives from stmt. */
  lemma StmtSoundAt(ts: seq<Token>, i: nat, m: nat)
    requires i < |ts| && ParseSimpleStmt(ts, i) == Ok(m) && m < |ts| - 1 && ts[m].category == Newline
    ensures IsStmt(Categories(ts)[i..m + 1])
  {
    if ts[i].category == Name {
      AssignmentSoundAt(ts, i, m);
    } else {
      PrintSoundAt(ts, i, m);
    }
  }

  /** program on a statement token: what stmt consumes derives from stmt, and program goes
      on after it with the same result. */
  lemma ProgramUnfold(ts: seq<Token>, i: nat, v: nat) returns (j: nat)
    requires i < |ts| && ts[i].category in {Name, Print} && ParseProgram(ts, i) == Ok(v)
    ensures i < j <= v < |ts| && IsStmt(Categories(ts)[i..j]) && ParseProgram(ts, j) == Ok(v)
  {
    j := ParseStmt(ts, i).value;
    StmtSound(ts, i);
  }

  /** A program that does not start with a statement is the `Eof` it stops on. */
  lemma {:induction false} ProgramEnd(ts: seq<Token>, i: nat, v: nat)
    requires i < |ts| && ts[i].category !in {Name, Print} && ParseProgram(ts, i) == Ok(v)
    ensures IsProgram(Categories(ts)[i..v + 1])
  {
    assert v == i;
    assert Categories(ts)[i..i + 1][0] == Eof;
  }

  /** A statement in front of a program ending at `Eof` position `v` makes a program. */
  lemma ProgramOfStmt(ts: seq<Token>, i: nat, j: nat, v: nat)
    requires i < j <= v < |ts| && IsStmt(Categories(ts)[i..j]) && IsProgram(Categories(ts)[j..v + 1])
    ensures IsProgram(Categories(ts)[i..v + 1])
  {
    ProgramOf(Categories(ts), i, j, v + 1);
  }

  lemma {:induction false} ProgramSound(ts: seq<Token>, i: nat)
    requires i < |ts|
    ensures ParseProgram(ts, i).Ok? ==> IsProgram(Categories(ts)[i..ParseProgram(ts, i).value + 1])
    decreases |ts| - i
  {
    if ParseProgram(ts, i).Ok? {
      ProgramSoundAt(ts, i, ParseProgram(ts, i).value);
      assert IsProgram(Categories(ts)[i..ParseProgram(ts, i).value + 1]);
    }
  }

  lemma {:induction false} ProgramSoundAt(ts: seq<Token>, i: nat, v: nat)
    requires i < |ts| && ParseProgram(ts, i) == Ok(v)
    ensures v < |ts| && IsProgram(Categories(ts)[i..v + 1])
    decreases |ts| - i
  {
    if ts[i].category in {Name, Print} {
      var j := ProgramUnfold(ts, i, v);
      ProgramSoundAt(ts, j, v);
      ProgramOfStmt(ts, i, j, v);
    } else {
      ProgramEnd(ts, i, v);
    }
  }

  // Completeness: a derivation followed by a token that cannot extend it is consumed exactly.

  lemma {:induction false} FactorComplete(ts: seq<Token>, i: nat, j: nat)
    requires i < j < |ts| && IsFactor(Categories(ts)[i..j])
    ensures ParseFactor(ts, i) == Ok(j)
    decreases j - i, 0
  {
    var cs := Categories(ts);
    FactorCases(cs, i, j);
    if cs[i] in {Plus, Minus} {
      FactorComplete(ts, i + 1, j);
      SignedFactorParses(ts, i, j);
    } else if cs[i] == LeftParen {
      ExprComplete(ts, i + 1, j - 1);
      ParenFactorParses(ts, i, j);
    } else {
      FactorStep(ts, i);
    }
  }

  /** factor on a sign goes on with the factor after it. */
  lemma {:induction false} SignedFactorParses(ts: seq<Token>, i: nat, j: nat)
    requires i + 1 < |ts| && ts[i].category in {Plus, Minus} && ParseFactor(ts, i + 1) == Ok(j)
    ensures ParseFactor(ts, i) == Ok(j)
  {
    FactorStep(ts, i);
  }

  /** factor on `(` consumes the expression and then `)`. */
  lemma {:induction false} ParenFactorParses(ts: seq<Token>, i: nat, j: nat)
    requires i + 1 < j - 1 && j < |ts| && ts[i].category == LeftParen && ts[j - 1].category == RightParen
    requires ParseExpr(ts, i + 1) == Ok(j - 1)
    ensures ParseFactor(ts, i) == Ok(j)
  {
    FactorStep(ts, i);
  }

  lemma {:induction false} TermTailComplete(ts: seq<Token>, i: nat, j: nat)
    requires i <= j < |ts| && IsTermTail(Categories(ts)[i..j]) && ts[j].category != Times
    ensures ParseTermTail(ts, i) == Ok(j)
    decreases j - i, 1
  {
    if i < j {
      var cs := Categories(ts);
      var m := TermTailSplit(cs, i, j);
      FactorComplete(ts, i + 1, m);
      TermTailComplete(ts, m, j);
    }
  }

  lemma {:induction false} TermComplete(ts: seq<Token>, i: nat, j: nat)
    requires i < j < |ts| && IsTerm(Categories(ts)[i..j]) && ts[j].category != Times
    ensures ParseTerm(ts, i) == Ok(j)
    decreases j - i, 2
  {
    var m := TermSplit(Categories(ts), i, j);
    FactorComplete(ts, i, m);
    TermTailComplete(ts, m, j);
  }

  lemma {:induction false} ExprTailComplete(ts: seq<Token>, i: nat, j: nat)
    requires i <= j < |ts| && IsExprTail(Categories(ts)[i..j])
    requires ts[i].category != Times && ts[j].category !in {Plus, Times}
    ensures ParseExprTail(ts, i) == Ok(j)
    decreases j - i, 3
  {
    if i < j {
      var cs := Categories(ts);
      var m := ExprTailSplit(cs, i, j);
      if m < j {
        var _ := ExprTailSplit(cs, m, j);
      }
      TermComplete(ts, i + 1, m);
      ExprTailComplete(ts, m, j);
    }
  }

  lemma {:induction false} ExprComplete(ts: seq<Token>, i: nat, j: nat)
    requires i < j < |ts| && IsExpr(Categories(ts)[i..j]) && ts[j].category !in {Plus, Times}
    ensures ParseExpr(ts, i) == Ok(j)
    decreases j - i, 4
  {
    var cs := Categories(ts);
    var m := ExprSplit(cs, i, j);
    if m < j {
      var _ := ExprTailSplit(cs, m, j);
    }
    TermComplete(ts, i, m);
    ExprTailComplete(ts, m, j);
  }

  lemma StmtComplete(ts: seq<Token>, i: nat, j: nat)
    requires i < j < |ts| && IsStmt(Categories(ts)[i..j])
    ensures ParseStmt(ts, i) == Ok(j)
  {
    SimpleStmtComplete(ts, i, j);
  }

  lemma SimpleStmtComplete(ts: seq<Token>, i: nat, j: nat)
    requires i < j < |ts| && IsStmt(Categories(ts)[i..j])
    ensures ParseSimpleStmt(ts, i) == Ok(j - 1) && ts[j - 1].category == Newline
  {
    var cs := Categories(ts);
    StmtCases(cs, i, j);
    if cs[i] == Name {
      AssignmentComplete(ts, i, j);
    } else {
      PrintComplete(ts, i, j);
    }
  }

  lemma AssignmentComplete(ts: seq<Token>, i: nat, j: nat)
    requires i + 3 < j < |ts| && ts[i + 1].category == AssignOp && IsExpr(Categories(ts)[i + 2..j - 1])
    requires ts[j - 1].category == Newline
    ensures ParseAssignment(ts, i) == Ok(j - 1)
  {
    AssignmentStep(ts, i);
    ExprComplete(ts, i + 2, j - 1);
  }

  lemma PrintComplete(ts: seq<Token>, i: nat, j: nat)
    requires i + 4 < j < |ts| && ts[i + 1].category == LeftParen && ts[j - 2].category == RightParen
    requires IsExpr(Categories(ts)[i + 2..j - 2])
    ensures ParsePrint(ts, i) == Ok(j - 1)
  {
    PrintStep(ts, i);
    ExprComplete(ts, i + 2, j - 2);
  }

  lemma {:induction false} ProgramComplete(ts: seq<Token>, i: nat, n: nat)
    requires i < n <= |ts| && IsProgram(Categories(ts)[i..n])
    ensures ParseProgram(ts, i) == Ok(n - 1)
    decreases n - i
  {
    var cs := Categories(ts);
    if n - i == 1 && cs[i] == Eof {
    } else {
      var m := ProgramSplit(cs, i, n);
      StmtCases(cs, i, m);
      StmtComplete(ts, i, m);
      ProgramComplete(ts, m, n);
    }
  }

  /** The parser accepts a token list exactly when a prefix of its categories, ending at
      the `Eof` where parsing stops, is derivable from `program`. */
  lemma ParseDecidesGrammar(ts: seq<Token>)
    ensures Parse(ts).Ok? <==> exists n :: 0 < n <= |ts| && IsProgram(Categories(ts)[..n])
    ensures Parse(ts).Ok? ==> IsProgram(Categories(ts)[..Parse(ts).value + 1])
  {
    if Parse(ts).Ok? {
      ParsedPrefixIsProgram(ts);
    }
    if n :| 0 < n <= |ts| && IsProgram(Categories(ts)[..n]) {
      ProgramPrefixParses(ts, n);
    }
  }

  lemma ParsedPrefixIsProgram(ts: seq<Token>)
    requires Parse(ts).Ok?
    ensures IsProgram(Categories(ts)[..Parse(ts).value + 1])
  {
    var v := Parse(ts).value;
    assert ParseProgram(ts, 0) == Ok(v);
    ProgramSoundAt(ts, 0, v);
    assert Categories(ts)[0..v + 1] == Categories(ts)[..v + 1];
  }

  lemma ProgramPrefixParses(ts: seq<Token>, n: nat)
    requires 0 < n <= |ts| && IsProgram(Categories(ts)[..n])
    ensures Parse(ts) == Ok(n - 1)
  {
    var cs := Categories(ts);
    assert cs[0..n] == cs[..n];
    ProgramComplete(ts, 0, n);
  }

  lemma {:induction false} ProgramEndsInEof(s: seq<Category>)
    requires IsProgram(s)
    ensures |s| > 0 && s[|s| - 1] == Eof
    decreases |s|
  {
    if s != [Eof] {
      var k :| 0 < k < |s| && IsStmt(s[..k]) && IsProgram(s[k..]);
      ProgramEndsInEof(s[k..]);
    }
  }

  /** On a token list with a single `Eof`, last (as the scanner produces), the parser
      accepts exactly the lists whose categories form a program. */
  lemma ParseAcceptsPrograms(ts: seq<Token>)
    requires EofTerminated(ts)
    ensures Parse(ts).Ok? <==> IsProgram(Categories(ts))
  {
    var cs := Categories(ts);
    ParseDecidesGrammar(ts);
    if n :| 0 < n <= |ts| && IsProgram(cs[..n]) {
      ProgramEndsInEof(cs[..n]);
      assert n == |ts|;
      assert cs[..n] == cs;
    }
    if IsProgram(cs) {
      assert cs[..|ts|] == cs;
    }
  }
}
