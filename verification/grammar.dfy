/**
  The grammar of the statement language as predicates on category sequences, and the
  theorem that the recursive-descent parser accepts exactly the token lists whose
  categories, up to the first `Eof`, form a program.

    program -> stmt* EOF
    stmt    -> (NAME ASSIGNOP expr | PRINT LEFTPAREN expr RIGHTPAREN) NEWLINE
    expr    -> term (PLUS term)*
    term    -> factor (TIMES factor)*
    factor  -> (PLUS | MINUS) factor | UNSIGNEDINT | NAME | LEFTPAREN expr RIGHTPAREN
*/
module Grammar {
  import opened Results
  import opened Tokens
  import opened Parser

  ghost predicate IsFactor(s: seq<Category>)
    decreases |s|, 0
  {
    || (|s| > 0 && s[0] in {Plus, Minus} && IsFactor(s[1..]))
    || (|s| == 1 && s[0] == UnsignedInt)
    || (|s| == 1 && s[0] == Name)
    || (|s| >= 2 && s[0] == LeftParen && s[|s| - 1] == RightParen && IsExpr(s[1..|s| - 1]))
  }

  /** (TIMES factor)* */
  ghost predicate IsTermTail(s: seq<Category>)
    decreases |s|, 1
  {
    || |s| == 0
    || (s[0] == Times && exists k :: 1 < k <= |s| && IsFactor(s[1..k]) && IsTermTail(s[k..]))
  }

  ghost predicate IsTerm(s: seq<Category>)
    decreases |s|, 2
  {
    exists k :: 0 < k <= |s| && IsFactor(s[..k]) && IsTermTail(s[k..])
  }

  /** (PLUS term)* */
  ghost predicate IsExprTail(s: seq<Category>)
    decreases |s|, 3
  {
    || |s| == 0
    || (s[0] == Plus && exists k :: 1 < k <= |s| && IsTerm(s[1..k]) && IsExprTail(s[k..]))
  }

  ghost predicate IsExpr(s: seq<Category>)
    decreases |s|, 4
  {
    exists k :: 0 < k <= |s| && IsTerm(s[..k]) && IsExprTail(s[k..])
  }

  ghost predicate IsStmt(s: seq<Category>) {
    || (|s| >= 4 && s[0] == Name && s[1] == AssignOp && s[|s| - 1] == Newline
        && IsExpr(s[2..|s| - 1]))
    || (|s| >= 5 && s[0] == Print && s[1] == LeftParen && s[|s| - 2] == RightParen
        && s[|s| - 1] == Newline && IsExpr(s[2..|s| - 2]))
  }

  ghost predicate IsProgram(s: seq<Category>)
    decreases |s|
  {
    || (|s| == 1 && s[0] == Eof)
    || exists k {:trigger IsStmt(s[..k]), IsProgram(s[k..])} :: 0 < k < |s| && IsStmt(s[..k]) && IsProgram(s[k..])
  }

  // Gluing and splitting derivations of adjacent slices.

  /** A slice of the slice `cs[i..j]` is a slice of `cs`. */
  lemma SliceOfSlice(cs: seq<Category>, i: nat, j: nat, a: nat, b: nat)
    requires i <= j <= |cs| && a <= b <= j - i
    ensures cs[i..j][a..b] == cs[i + a..i + b]
  {
    var x, y := cs[i..j][a..b], cs[i + a..i + b];
    forall t | 0 <= t < |x|
      ensures x[t] == y[t]
    {
      assert x[t] == cs[i..j][a + t] == cs[i + a + t];
    }
  }

  lemma PrefixOfSlice(cs: seq<Category>, i: nat, j: nat, b: nat)
    requires i <= j <= |cs| && b <= j - i
    ensures cs[i..j][..b] == cs[i..i + b]
  {
    var x, y := cs[i..j][..b], cs[i..i + b];
    forall t | 0 <= t < |x|
      ensures x[t] == y[t]
    {
      assert x[t] == cs[i..j][t] == cs[i + t];
    }
  }

  lemma SuffixOfSlice(cs: seq<Category>, i: nat, j: nat, a: nat)
    requires i <= j <= |cs| && a <= j - i
    ensures cs[i..j][a..] == cs[i + a..j]
  {
    var x, y := cs[i..j][a..], cs[i + a..j];
    forall t | 0 <= t < |x|
      ensures x[t] == y[t]
    {
      assert x[t] == cs[i..j][a + t] == cs[i + a + t];
    }
  }

  lemma FactorOfSign(cs: seq<Category>, i: nat, j: nat)
    requires i < j <= |cs| && cs[i] in {Plus, Minus} && IsFactor(cs[i + 1..j])
    ensures IsFactor(cs[i..j])
  {
    SuffixOfSlice(cs, i, j, 1);
    assert cs[i..j][1..] == cs[i + 1..j];
  }

  lemma FactorOfParen(cs: seq<Category>, i: nat, k: nat)
    requires i < k < |cs| && cs[i] == LeftParen && cs[k] == RightParen && IsExpr(cs[i + 1..k])
    ensures IsFactor(cs[i..k + 1])
  {
    var s := cs[i..k + 1];
    SliceOfSlice(cs, i, k + 1, 1, k - i);
    assert s[0] == LeftParen && s[|s| - 1] == RightParen && IsExpr(s[1..|s| - 1]);
  }

  /** The three shapes of a factor derivation. */
  lemma FactorCases(cs: seq<Category>, i: nat, j: nat)
    requires i <= j <= |cs| && IsFactor(cs[i..j])
    ensures i < j
    ensures cs[i] in {Plus, Minus} ==> IsFactor(cs[i + 1..j])
    ensures cs[i] in {UnsignedInt, Name} ==> j == i + 1
    ensures cs[i] == LeftParen ==> i + 2 <= j && cs[j - 1] == RightParen && IsExpr(cs[i + 1..j - 1])
    ensures cs[i] in {Plus, Minus, UnsignedInt, Name, LeftParen}
  {
    var s := cs[i..j];
    if cs[i] in {Plus, Minus} {
      SuffixOfSlice(cs, i, j, 1);
    } else if cs[i] == LeftParen {
      assert |s| >= 2 && s[|s| - 1] == RightParen && IsExpr(s[1..|s| - 1]);
      SliceOfSlice(cs, i, j, 1, j - i - 1);
    }
  }

  lemma AssignmentOf(cs: seq<Category>, i: nat, m: nat)
    requires i + 2 < m < |cs| && cs[i] == Name && cs[i + 1] == AssignOp && cs[m] == Newline
    requires IsExpr(cs[i + 2..m])
    ensures IsStmt(cs[i..m + 1])
  {
    var s := cs[i..m + 1];
    SliceOfSlice(cs, i, m + 1, 2, m - i);
    assert s[0] == Name && s[1] == AssignOp && s[|s| - 1] == Newline && IsExpr(s[2..|s| - 1]);
  }

  lemma PrintOf(cs: seq<Category>, i: nat, m: nat)
    requires i + 2 < m && m + 1 < |cs| && cs[i] == Print && cs[i + 1] == LeftParen
    requires cs[m] == RightParen && cs[m + 1] == Newline && IsExpr(cs[i + 2..m])
    ensures IsStmt(cs[i..m + 2])
  {
    var s := cs[i..m + 2];
    SliceOfSlice(cs, i, m + 2, 2, m - i);
    assert s[0] == Print && s[1] == LeftParen && s[|s| - 2] == RightParen && s[|s| - 1] == Newline;
    assert IsExpr(s[2..|s| - 2]);
  }

  /** The two shapes of a statement derivation. */
  lemma StmtCases(cs: seq<Category>, i: nat, j: nat)
    requires i <= j <= |cs| && IsStmt(cs[i..j])
    ensures cs[i] in {Name, Print} && cs[j - 1] == Newline
    ensures cs[i] == Name ==> i + 3 < j && cs[i + 1] == AssignOp && IsExpr(cs[i + 2..j - 1])
    ensures cs[i] == Print ==>
      i + 4 < j && cs[i + 1] == LeftParen && cs[j - 2] == RightParen && IsExpr(cs[i + 2..j - 2])
  {
    var s := cs[i..j];
    if s[0] == Name {
      assert IsExpr(s[2..|s| - 1]);
      SliceOfSlice(cs, i, j, 2, j - i - 1);
    } else {
      assert IsExpr(s[2..|s| - 2]);
      SliceOfSlice(cs, i, j, 2, j - i - 2);
    }
  }

  lemma TermOf(cs: seq<Category>, i: nat, j: nat, m: nat)
    requires i < j <= m <= |cs|
    requires IsFactor(cs[i..j]) && IsTermTail(cs[j..m])
    ensures IsTerm(cs[i..m])
  {
    PrefixOfSlice(cs, i, m, j - i);
    SuffixOfSlice(cs, i, m, j - i);
    assert IsFactor(cs[i..m][..j - i]) && IsTermTail(cs[i..m][j - i..]);
  }

  lemma TermSplit(cs: seq<Category>, i: nat, j: nat) returns (m: nat)
    requires i <= j <= |cs| && IsTerm(cs[i..j])
    ensures i < m <= j && IsFactor(cs[i..m]) && IsTermTail(cs[m..j])
  {
    var s := cs[i..j];
    var k :| 0 < k <= |s| && IsFactor(s[..k]) && IsTermTail(s[k..]);
    m := i + k;
    PrefixOfSlice(cs, i, j, k);
    SuffixOfSlice(cs, i, j, k);
  }

  lemma TermTailOf(cs: seq<Category>, i: nat, j: nat, m: nat)
    requires i + 1 < j <= m <= |cs| && cs[i] == Times
    requires IsFactor(cs[i + 1..j]) && IsTermTail(cs[j..m])
    ensures IsTermTail(cs[i..m])
  {
    var s := cs[i..m];
    SliceOfSlice(cs, i, m, 1, j - i);
    SuffixOfSlice(cs, i, m, j - i);
    assert s[0] == Times && 1 < j - i <= |s| && IsFactor(s[1..j - i]) && IsTermTail(s[j - i..]);
  }

  lemma TermTailSplit(cs: seq<Category>, i: nat, j: nat) returns (m: nat)
    requires i < j <= |cs| && IsTermTail(cs[i..j])
    ensures cs[i] == Times && i + 1 < m <= j && IsFactor(cs[i + 1..m]) && IsTermTail(cs[m..j])
  {
    var s := cs[i..j];
    var k :| 1 < k <= |s| && IsFactor(s[1..k]) && IsTermTail(s[k..]);
    m := i + k;
    SliceOfSlice(cs, i, j, 1, k);
    SuffixOfSlice(cs, i, j, k);
  }

  lemma ExprOf(cs: seq<Category>, i: nat, j: nat, m: nat)
    requires i < j <= m <= |cs|
    requires IsTerm(cs[i..j]) && IsExprTail(cs[j..m])
    ensures IsExpr(cs[i..m])
  {
    PrefixOfSlice(cs, i, m, j - i);
    SuffixOfSlice(cs, i, m, j - i);
    assert IsTerm(cs[i..m][..j - i]) && IsExprTail(cs[i..m][j - i..]);
  }

  lemma ExprSplit(cs: seq<Category>, i: nat, j: nat) returns (m: nat)
    requires i <= j <= |cs| && IsExpr(cs[i..j])
    ensures i < m <= j && IsTerm(cs[i..m]) && IsExprTail(cs[m..j])
  {
    var s := cs[i..j];
    var k :| 0 < k <= |s| && IsTerm(s[..k]) && IsExprTail(s[k..]);
    m := i + k;
    PrefixOfSlice(cs, i, j, k);
    SuffixOfSlice(cs, i, j, k);
  }

  lemma ExprTailOf(cs: seq<Category>, i: nat, j: nat, m: nat)
    requires i + 1 < j <= m <= |cs| && cs[i] == Plus
    requires IsTerm(cs[i + 1..j]) && IsExprTail(cs[j..m])
    ensures IsExprTail(cs[i..m])
  {
    var s := cs[i..m];
    SliceOfSlice(cs, i, m, 1, j - i);
    SuffixOfSlice(cs, i, m, j - i);
    assert s[0] == Plus && 1 < j - i <= |s| && IsTerm(s[1..j - i]) && IsExprTail(s[j - i..]);
  }

  lemma ExprTailSplit(cs: seq<Category>, i: nat, j: nat) returns (m: nat)
    requires i < j <= |cs| && IsExprTail(cs[i..j])
    ensures cs[i] == Plus && i + 1 < m <= j && IsTerm(cs[i + 1..m]) && IsExprTail(cs[m..j])
  {
    var s := cs[i..j];
    var k :| 1 < k <= |s| && IsTerm(s[1..k]) && IsExprTail(s[k..]);
    m := i + k;
    SliceOfSlice(cs, i, j, 1, k);
    SuffixOfSlice(cs, i, j, k);
  }

  lemma ProgramOf(cs: seq<Category>, i: nat, j: nat, m: nat)
    requires i < j < m <= |cs|
    requires IsStmt(cs[i..j]) && IsProgram(cs[j..m])
    ensures IsProgram(cs[i..m])
  {
    var s := cs[i..m];
    PrefixOfSlice(cs, i, m, j - i);
    SuffixOfSlice(cs, i, m, j - i);
    assert 0 < j - i < |s| && IsStmt(s[..j - i]) && IsProgram(s[j - i..]);
  }

  lemma ProgramSplit(cs: seq<Category>, i: nat, j: nat) returns (m: nat)
    requires i <= j <= |cs| && IsProgram(cs[i..j]) && cs[i..j] != [Eof]
    ensures i < m < j && IsStmt(cs[i..m]) && IsProgram(cs[m..j])
  {
    var s := cs[i..j];
    var k :| 0 < k < |s| && IsStmt(s[..k]) && IsProgram(s[k..]);
    m := i + k;
    PrefixOfSlice(cs, i, j, k);
    SuffixOfSlice(cs, i, j, k);
  }
}
