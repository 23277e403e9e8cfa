/**
  Properties of the scanner, proved on the reference scanner and carried over to
  `Tokenize` by `TokenizeMatchesReference`.
*/
module ScanProperties {
  import opened Results
  import opened Chars
  import opened Tokens
  import opened Source
  import opened Scanner
  import opened ScanSpec

  /** The kept characters of the source from position `k` on: the source without its
      non-newline whitespace and without the newlines that end blank lines. */
  function SigFrom(src: string, k: nat): string
    requires k <= |src|
    decreases |src| - k
  {
    if k == |src| then "" else (if Kept(src, k) then [src[k]] else "") + SigFrom(src, k + 1)
  }

  function Significant(src: string): string {
    SigFrom(src, 0)
  }

  lemma {:induction false} SigSkip(src: string, k: nat, m: nat)
    requires k <= m <= |src|
    requires forall j :: k <= j < m ==> !Kept(src, j)
    ensures SigFrom(src, k) == SigFrom(src, m)
    decreases m - k
  {
    if k < m {
      SigSkip(src, k + 1, m);
    }
  }

  lemma {:induction false} SigRun(src: string, p: nat, e: nat)
    requires p <= e <= |src|
    requires forall j :: p <= j < e ==> !IsSpace(src[j])
    ensures SigFrom(src, p) == src[p..e] + SigFrom(src, e)
    decreases e - p
  {
    if p < e {
      assert Kept(src, p);
      assert SigFrom(src, p) == [src[p]] + SigFrom(src, p + 1);
      SigRun(src, p + 1, e);
      assert src[p..e] == [src[p]] + src[p + 1..e];
    }
  }

  lemma LexemesCons(t: Token, ts: seq<Token>)
    ensures Lexemes([t] + ts) == t.lexeme + Lexemes(ts)
  {
    assert ([t] + ts)[1..] == ts;
  }

  /** Run characters are never whitespace. */
  lemma RunNotSpace(src: string, p: nat, kind: RunKind)
    requires p <= |src|
    ensures forall j :: p <= j < RunEnd(src, p, kind) ==> !IsSpace(src[j]) && !StartsNoToken(src[j])
  {
  }

  /** The lexemes of the reference tokens from `k` on spell the kept characters from `k` on. */
  lemma {:induction false} RefScanRoundTrip(src: string, k: nat)
    requires k <= |src|
    ensures RefScan(src, k).Ok? ==> Lexemes(RefScan(src, k).value) == SigFrom(src, k)
    decreases |src| - k
  {
    var p := NextKept(src, k);
    SigSkip(src, k, p);
    match RefToken(src, p)
    case Err(_) =>
    case Ok((t, e)) =>
      if p < |src| && RefScan(src, e).Ok? {
        RefScanRoundTrip(src, e);
        LexemesCons(t, RefScan(src, e).value);
        var c := src[p];
        if IsDigit(c) {
          RunNotSpace(src, p, Digits);
          SigRun(src, p, e);
        } else if IsWordStart(c) {
          RunNotSpace(src, p, Word);
          SigRun(src, p, e);
        } else {
          assert t.lexeme == [src[p]];
        }
      }
  }

  /** Lexeme round trip: on success the lexemes, `Eof`'s empty one included, concatenate to
      the source without its non-newline whitespace and without blank lines' newlines. */
  lemma TokenizeRoundTrip(src: string)
    ensures Tokenize(src).Ok? ==> Lexemes(Tokenize(src).value) == Significant(src)
  {
    TokenizeMatchesReference(src);
    RefScanRoundTrip(src, 0);
  }

  /** Token `t` was built from position `p`: its lexeme is the source text there, its line
      and column are `p`'s, and a digit or name run ends where the run of its kind ends. */
  ghost predicate LocatedAt(src: string, p: nat, t: Token) {
    && p + |t.lexeme| <= |src|
    && src[p..p + |t.lexeme|] == t.lexeme
    && t.line == LineOf(src, p)
    && t.column == ColOf(src, p)
    && (t.category == UnsignedInt && p + |t.lexeme| < |src| ==> !IsDigit(src[p + |t.lexeme|]))
    && (t.category in {Name, Print} && p + |t.lexeme| < |src| ==> !IsWordChar(src[p + |t.lexeme|]))
  }

  /** Every token but the last was built from a position at or after `k`. */
  ghost predicate LocatedFrom(src: string, k: nat, ts: seq<Token>) {
    forall i :: 0 <= i < |ts| - 1 ==> LocatedAfter(src, k, ts[i])
  }

  /** Token `t` was built from some position at or after `k`. */
  ghost predicate LocatedAfter(src: string, k: nat, t: Token) {
    exists j: nat :: k <= j < |src| && LocatedAt(src, j, t)
  }

  lemma RefTokenLocated(src: string, p: nat)
    requires p < |src|
    requires RefToken(src, p).Ok?
    ensures LocatedAt(src, p, RefToken(src, p).value.0)
  {
    var c := src[p];
    if !IsDigit(c) && !IsWordStart(c) {
      assert |ChText(Char(c))| == 1;
    }
  }

  lemma LocatedCons(src: string, k: nat, p: nat, e: nat, t: Token, rest: seq<Token>)
    requires k <= p < |src| && k <= e
    requires LocatedAt(src, p, t)
    requires |rest| > 0 && LocatedFrom(src, e, rest)
    ensures LocatedFrom(src, k, [t] + rest)
  {
    var ts := [t] + rest;
    forall i | 0 <= i < |ts| - 1
      ensures LocatedAfter(src, k, ts[i])
    {
      if i == 0 {
        assert LocatedAt(src, p, ts[0]);
      } else {
        assert ts[i] == rest[i - 1];
        var j :| e <= j < |src| && LocatedAt(src, j, rest[i - 1]);
        assert k <= j < |src| && LocatedAt(src, j, ts[i]);
      }
    }
  }

  lemma {:induction false} RefScanLocated(src: string, k: nat)
    requires k <= |src|
    ensures RefScan(src, k).Ok? ==>
      var ts := RefScan(src, k).value;
      && |ts| > 0
      && ts[|ts| - 1] == Token(LineOf(src, |src|), 1, Eof, "")
      && LocatedFrom(src, k, ts)
    decreases |src| - k
  {
    var p := NextKept(src, k);
    match RefToken(src, p)
    case Err(_) =>
    case Ok((t, e)) =>
      if p < |src| && RefScan(src, e).Ok? {
        RefScanLocated(src, e);
        var rest := RefScan(src, e).value;
        assert RefScan(src, k) == Ok([t] + rest);
        RefTokenLocated(src, p);
        LocatedCons(src, k, p, e, t, rest);
      }
  }

  /** Token positions: on success every token but the last was built from some source
      position, whose 1-based line and column it carries; the last is `Eof`, on the line
      after the last newline, in column 1. */
  lemma TokenPositions(src: string)
    ensures Tokenize(src).Ok? ==>
      var ts := Tokenize(src).value;
      && ts[|ts| - 1] == Token(LineOf(src, |src|), 1, Eof, "")
      && LocatedFrom(src, 0, ts)
  {
    TokenizeMatchesReference(src);
    RefScanLocated(src, 0);
  }

  /** The first position at or after `k` holding a character that starts no token, or the end. */
  function FirstInvalid(src: string, k: nat): (r: nat)
    requires k <= |src|
    ensures k <= r <= |src|
    ensures forall j :: k <= j < r ==> !StartsNoToken(src[j])
    ensures r < |src| ==> StartsNoToken(src[r])
    decreases |src| - k
  {
    if k == |src| || StartsNoToken(src[k]) then k else FirstInvalid(src, k + 1)
  }

  lemma {:induction false} FirstInvalidFrom(src: string, k: nat, m: nat)
    requires k <= m <= |src|
    requires forall j :: k <= j < m ==> !StartsNoToken(src[j])
    ensures FirstInvalid(src, k) == FirstInvalid(src, m)
    decreases m - k
  {
    if k < m {
      FirstInvalidFrom(src, k + 1, m);
    }
  }

  /** A reference token covers only characters that start tokens; it fails exactly on a
      character that starts none, reporting it. */
  lemma RefTokenValidity(src: string, p: nat)
    requires p < |src| && Kept(src, p)
    ensures RefToken(src, p).Ok? ==> forall j :: p <= j < RefToken(src, p).value.1 ==> !StartsNoToken(src[j])
    ensures RefToken(src, p).Err? <==> StartsNoToken(src[p])
    ensures RefToken(src, p).Err? ==>
      RefToken(src, p).error.token == Token(LineOf(src, p), ColOf(src, p), Error, [src[p]])
  {
    if IsDigit(src[p]) {
      RunTokenValidity(src, p, Digits);
    } else if IsWordStart(src[p]) {
      RunTokenValidity(src, p, Word);
    } else {
      OneCharTokenValidity(src, p);
    }
  }

  lemma OneCharTokenValidity(src: string, p: nat)
    requires p < |src| && Kept(src, p) && !IsDigit(src[p]) && !IsWordStart(src[p])
    ensures RefToken(src, p).Ok? ==> forall j :: p <= j < RefToken(src, p).value.1 ==> !StartsNoToken(src[j])
    ensures RefToken(src, p).Ok? ==> RefToken(src, p).value.1 == p + 1
    ensures RefToken(src, p).Err? <==> StartsNoToken(src[p])
    ensures RefToken(src, p).Err? ==>
      RefToken(src, p).error.token == Token(LineOf(src, p), ColOf(src, p), Error, [src[p]])
  {
  }

  lemma RunTokenValidity(src: string, p: nat, kind: RunKind)
    requires p < |src| && InRunChar(kind, src[p])
    requires kind == Word <==> !IsDigit(src[p])
    ensures RefToken(src, p).Ok? && RefToken(src, p).value.1 == RunEnd(src, p, kind)
    ensures forall j :: p <= j < RunEnd(src, p, kind) ==> !StartsNoToken(src[j])
    ensures forall j :: p <= j < RefToken(src, p).value.1 ==> !StartsNoToken(src[j])
    ensures !StartsNoToken(src[p])
  {
    RunNotSpace(src, p, kind);
  }

  lemma {:induction false} RefScanFailsAtFirstInvalid(src: string, k: nat)
    requires k <= |src|
    ensures RefScan(src, k).Err? <==> FirstInvalid(src, k) < |src|
    ensures RefScan(src, k).Err? ==>
      var f := FirstInvalid(src, k);
      RefScan(src, k).error.token == Token(LineOf(src, f), ColOf(src, f), Error, [src[f]])
    decreases |src| - k
  {
    var p := NextKept(src, k);
    forall j | k <= j < p
      ensures !StartsNoToken(src[j])
    {
      assert !Kept(src, j);
    }
    FirstInvalidFrom(src, k, p);
    if p < |src| {
      RefTokenValidity(src, p);
      if RefToken(src, p).Ok? {
        var (t, e) := RefToken(src, p).value;
        assert RefScan(src, k) == Prepend(t, RefScan(src, e));
        FirstInvalidFrom(src, p, e);
        RefScanFailsAtFirstInvalid(src, e);
      }
    }
  }

  /** Invalid characters: the scan fails exactly when the source holds a character that
      starts no token, and then it reports the first one, at its line and column. */
  lemma TokenizeFailsAtFirstInvalid(src: string)
    ensures Tokenize(src).Err? <==> exists j :: 0 <= j < |src| && StartsNoToken(src[j])
    ensures Tokenize(src).Err? ==>
      var f := FirstInvalid(src, 0);
      && f < |src|
      && (forall j :: 0 <= j < f ==> !StartsNoToken(src[j]))
      && Tokenize(src).error.token == Token(LineOf(src, f), ColOf(src, f), Error, [src[f]])
  {
    TokenizeMatchesReference(src);
    RefScanFailsAtFirstInvalid(src, 0);
  }

  lemma {:induction false} WhitespaceLinesAreBlank(src: string, k: nat)
    requires k <= |src|
    requires forall j :: 0 <= j < |src| ==> IsSpace(src[j])
    ensures BlankBefore(src, k)
  {
    if k > 0 {
      WhitespaceLinesAreBlank(src, k - 1);
    }
  }

  /** Blank-line collapse: a source made only of whitespace, newlines included, yields the
      `Eof` token alone. */
  lemma WhitespaceSourceIsEof(src: string)
    requires forall j :: 0 <= j < |src| ==> IsSpace(src[j])
    ensures Tokenize(src) == Ok([Token(LineOf(src, |src|), 1, Eof, "")])
  {
    forall j | 0 <= j < |src|
      ensures !Kept(src, j)
    {
      WhitespaceLinesAreBlank(src, j);
    }
    TokenizeMatchesReference(src);
  }

  /** The newlines that end a line holding a non-whitespace character, from `k` on. */
  function NonBlankLineEnds(src: string, k: nat): nat
    requires k <= |src|
    decreases |src| - k
  {
    if k == |src| then 0
    else (if src[k] == '\n' && !BlankBefore(src, k) then 1 else 0) + NonBlankLineEnds(src, k + 1)
  }

  function CountCategory(ts: seq<Token>, cat: Category): nat {
    if |ts| == 0 then 0 else (if ts[0].category == cat then 1 else 0) + CountCategory(ts[1..], cat)
  }

  lemma {:induction false} NonBlankLineEndsSkip(src: string, k: nat, m: nat)
    requires k <= m <= |src|
    requires forall j :: k <= j < m ==> src[j] != '\n' || !Kept(src, j)
    ensures NonBlankLineEnds(src, k) == NonBlankLineEnds(src, m)
    decreases m - k
  {
    if k < m {
      NonBlankLineEndsSkip(src, k + 1, m);
    }
  }

  lemma CountCategoryCons(t: Token, ts: seq<Token>, cat: Category)
    ensures CountCategory([t] + ts, cat) == (if t.category == cat then 1 else 0) + CountCategory(ts, cat)
  {
    assert ([t] + ts)[1..] == ts;
  }

  /** The reference token at a kept position is a `Newline` exactly when it covers a
      newline ending a non-blank line; no other line end lies inside it. */
  lemma TokenNewlines(src: string, p: nat)
    requires p < |src| && Kept(src, p) && RefToken(src, p).Ok?
    ensures var (t, e) := RefToken(src, p).value;
      NonBlankLineEnds(src, p) == (if t.category == Newline then 1 else 0) + NonBlankLineEnds(src, e)
  {
    var c := src[p];
    if IsDigit(c) || IsWordStart(c) {
      var kind := if IsDigit(c) then Digits else Word;
      RunTokenValidity(src, p, kind);
      NonBlankLineEndsSkip(src, p, RunEnd(src, p, kind));
    } else {
      OneCharTokenValidity(src, p);
    }
  }

  lemma {:induction false} RefScanNewlines(src: string, k: nat)
    requires k <= |src|
    ensures RefScan(src, k).Ok? ==> CountCategory(RefScan(src, k).value, Newline) == NonBlankLineEnds(src, k)
    decreases |src| - k
  {
    var p := NextKept(src, k);
    NonBlankLineEndsSkip(src, k, p);
    if p < |src| && RefScan(src, k).Ok? {
      var (t, e) := RefToken(src, p).value;
      assert RefScan(src, k) == Prepend(t, RefScan(src, e));
      RefScanNewlines(src, e);
      TokenNewlines(src, p);
      CountCategoryCons(t, RefScan(src, e).value, Newline);
    }
  }

  /** Newline tokens: on success there is exactly one `Newline` token per newline that ends
      a line holding a non-whitespace character; blank lines contribute none. */
  lemma NewlinesCountNonBlankLines(src: string)
    ensures Tokenize(src).Ok? ==> CountCategory(Tokenize(src).value, Newline) == NonBlankLineEnds(src, 0)
  {
    TokenizeMatchesReference(src);
    RefScanNewlines(src, 0);
  }
}
