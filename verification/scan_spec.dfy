/**
  A reference scanner stated over positions in the source text, and the theorem that
  the state-based scanner computes exactly what it describes.
*/
module ScanSpec {
  import opened Results
  import opened Chars
  import opened Tokens
  import opened Source
  import opened Scanner

  /** Whether the character at `k` survives into some lexeme: anything but whitespace,
      plus the newline of a line that holds a non-whitespace character. */
  predicate Kept(src: string, k: nat)
    requires k < |src|
  {
    !IsSpace(src[k]) || (src[k] == '\n' && !BlankBefore(src, k))
  }

  /** The first kept position at or after `k`, or the end. */
  function NextKept(src: string, k: nat): (r: nat)
    requires k <= |src|
    ensures k <= r <= |src|
    ensures forall j :: k <= j < r ==> !Kept(src, j)
    ensures r < |src| ==> Kept(src, r)
    decreases |src| - k
  {
    if k == |src| || Kept(src, k) then k else NextKept(src, k + 1)
  }

  /** The end of the maximal run of one kind that starts at `k`. */
  function RunEnd(src: string, k: nat, kind: RunKind): (r: nat)
    requires k <= |src|
    ensures k <= r <= |src|
    ensures forall j :: k <= j < r ==> InRunChar(kind, src[j])
    ensures r < |src| ==> !InRunChar(kind, src[r])
    decreases |src| - k
  {
    if k < |src| && InRunChar(kind, src[k]) then RunEnd(src, k + 1, kind) else k
  }

  /** Prepends a token to the tokens scanned after it, keeping the first error. */
  function Prepend(t: Token, rest: Result<seq<Token>, ScanError>): (r: Result<seq<Token>, ScanError>)
    ensures r.Ok? <==> rest.Ok?
    ensures r.Ok? ==> r.value == [t] + rest.value
    ensures r.Err? ==> r.error == rest.error
  {
    match rest
    case Ok(ts) => Ok([t] + ts)
    case Err(e) => Err(e)
  }

  /** The token that starts at kept position `p` (or `Eof` at the end) and the position
      after it: the token carries its first character's line and column and spans the
      maximal run there, or one character for the one-character tokens; `Eof` sits on the
      line after the last newline, in column 1. */
  function RefToken(src: string, p: nat): (r: Result<(Token, nat), ScanError>)
    requires p <= |src|
    ensures r.Ok? ==> (r.value.0.category == Eof <==> p == |src|)
    ensures r.Ok? && p < |src| ==> p < r.value.1 <= |src|
  {
    if p == |src| then
      Ok((Token(LineOf(src, |src|), 1, Eof, ""), |src|))
    else
      var c := src[p];
      if IsDigit(c) then
        var e := RunEnd(src, p, Digits);
        Ok((Token(LineOf(src, p), ColOf(src, p), UnsignedInt, src[p..e]), e))
      else if IsWordStart(c) then
        var e := RunEnd(src, p, Word);
        Ok((Token(LineOf(src, p), ColOf(src, p), WordCategory(src[p..e]), src[p..e]), e))
      else if SmallToken(Char(c)).Some? then
        Ok((Token(LineOf(src, p), ColOf(src, p), SmallToken(Char(c)).value, [c]), p + 1))
      else
        Err(InvalidToken(Token(LineOf(src, p), ColOf(src, p), Error, [c])))
  }

  /** The tokens of the source from position `k` on: the token at each next kept
      position, up to and including `Eof`, or the first error. */
  function RefScan(src: string, k: nat): Result<seq<Token>, ScanError>
    requires k <= |src|
    decreases |src| - k
  {
    var p := NextKept(src, k);
    match RefToken(src, p)
    case Err(e) => Err(e)
    case Ok((t, e)) =>
      if p == |src| then Ok([t]) else Prepend(t, RefScan(src, e))
  }

  /** At a kept position the reader hands out the raw character. */
  lemma ShownAtKept(src: string, k: nat)
    requires k < |src|
    ensures Skippable(Char(Shown(src, k))) <==> !Kept(src, k)
    ensures Kept(src, k) ==> Shown(src, k) == src[k]
  {
  }

  /** Skipping whitespace from position `k` stops at the next kept position. */
  lemma {:induction false} SkipMatches(src: string, k: nat)
    requires k <= |src|
    ensures SkipSpaces(src, Cursor(src, k).0, Cursor(src, k).1) == Cursor(src, NextKept(src, k))
    decreases |src| - k
  {
    if k < |src| {
      ShownAtKept(src, k);
      if !Kept(src, k) {
        GetCharStep(src, k);
        SkipMatches(src, k + 1);
      }
    }
  }

  /** One character of a run: it is read as itself, and the run goes on from the next
      position exactly when that position holds a run character. */
  lemma RunStep(src: string, k: nat, kind: RunKind)
    requires k < |src| && InRunChar(kind, src[k])
    ensures Cursor(src, k).1 == Char(src[k])
    ensures var next := Cursor(src, k + 1);
      ScanRun(src, Cursor(src, k).0, Cursor(src, k).1, kind)
      == if k + 1 < |src| && InRunChar(kind, src[k + 1]) then
           var r := ScanRun(src, next.0, next.1, kind); ([src[k]] + r.0, r.1, r.2)
         else
           ([src[k]], next.0, next.1)
    ensures RunEnd(src, k, kind) == if k + 1 < |src| && InRunChar(kind, src[k + 1]) then RunEnd(src, k + 1, kind) else k + 1
  {
    GetCharStep(src, k);
    assert InRun(kind, Cursor(src, k + 1).1) <==> k + 1 < |src| && InRunChar(kind, src[k + 1]);
  }

  /** Reading a run from position `k` yields the source slice up to the run's end. */
  lemma {:induction false} RunMatches(src: string, k: nat, kind: RunKind)
    requires k < |src| && InRunChar(kind, src[k])
    ensures ScanRun(src, Cursor(src, k).0, Cursor(src, k).1, kind)
         == (src[k..RunEnd(src, k, kind)], Cursor(src, RunEnd(src, k, kind)).0, Cursor(src, RunEnd(src, k, kind)).1)
    decreases |src| - k
  {
    var e := RunEnd(src, k, kind);
    RunStep(src, k, kind);
    if k + 1 < |src| && InRunChar(kind, src[k + 1]) {
      RunMatches(src, k + 1, kind);
      assert [src[k]] + src[k + 1..e] == src[k..e];
    } else {
      assert [src[k]] == src[k..e];
    }
  }

  /** From the cursor at kept position `p`, the scanner builds the reference token and
      leaves the cursor after it. */
  lemma TokenMatches(src: string, p: nat)
    requires p <= |src|
    requires p < |src| ==> Kept(src, p)
    ensures !Skippable(Cursor(src, p).1)
    ensures ScanToken(src, Cursor(src, p).0, Cursor(src, p).1)
         == match RefToken(src, p)
            case Ok((t, e)) => Ok((t, Cursor(src, e).0, Cursor(src, e).1))
            case Err(err) => Err(err)
  {
    CursorPosition(src, p);
    if p < |src| {
      ShownAtKept(src, p);
      var c := src[p];
      if IsDigit(c) {
        RunMatches(src, p, Digits);
      } else if IsWordStart(c) {
        RunMatches(src, p, Word);
      } else if SmallToken(Char(c)).Some? {
        GetCharStep(src, p);
      }
    }
  }

  /** From the cursor at position `k`, the scanner produces the reference tokens. */
  lemma {:induction false} ScanFromMatches(src: string, k: nat)
    requires k <= |src|
    ensures ScanFrom(src, Cursor(src, k).0, Cursor(src, k).1) == RefScan(src, k)
    decreases |src| - k
  {
    var p := NextKept(src, k);
    SkipMatches(src, k);
    TokenMatches(src, p);
    match RefToken(src, p)
    case Err(_) =>
    case Ok((t, e)) =>
      if p < |src| {
        ScanFromMatches(src, e);
      }
  }

  /** The scanner computes the reference token list of the whole source. */
  lemma TokenizeMatchesReference(src: string)
    ensures Tokenize(src) == RefScan(src, 0)
  {
    GetCharFromStart(src);
    assert SkipSpaces(src, Start, Char(' ')) == SkipSpaces(src, Cursor(src, 0).0, Cursor(src, 0).1);
    ScanFromMatches(src, 0);
  }
}
