# A verified model of a small scanner and recursive-descent parser

The repository is a set of exercises from *Writing Interpreters and Compilers for the
Raspberry Pi Using Python*. This project models three of its programs in Dafny:

- **parser1.py** is a front end for a tiny statement language. Its programs are lines of
  `name = expr` and `print(expr)`. Expressions are built from `+`, `*`, unary `+`/`-`,
  unsigned integers, names and parentheses. A scanner (`tokenizer` with `getchar`) turns
  the source into tokens. It tracks the line and column of each token and collapses blank
  lines. A predictive recursive-descent parser then checks the tokens against the grammar.
  **t1.py** holds the same scanner, line for line (t1.py:56-132 is parser1.py:60-136
  shifted by four lines). One model serves both, and rows below cite either file.
- **Ch4Q1.py** and **sp.py** are one-character-per-token recognisers over the command-line
  argument. Each reports a clean accept, leftover input ("garbage") or the first error.

The Python globals (source index, line, column, previous character, blank-line flag, token
list, token index) become explicit values. The scanner threads a `ScanState` record. The
parsers thread a cursor index. Every `raise RuntimeError` becomes an error value of a
`Result`. The end-of-input sentinel `''` becomes `Ch.EndCh`.

The proofs follow one plan. The operational model follows the code branch by branch. It is
then tied to an independent definition:

- **Scanner.** `Scanner.Tokenize` is proved equal to `ScanSpec.RefScan`
  (`ScanSpec.TokenizeMatchesReference`). `RefScan` is a reference scanner that works on
  source positions. Positions are described by `Source.LineOf`, `Source.ColOf` and
  `Source.BlankBefore` instead of mutable counters. Every scanner property is proved on
  the reference and carried over:
  - the lexemes spell out the source minus skipped whitespace;
  - each token sits at the line and column it reports;
  - the scan fails exactly at the first character that starts no token;
  - there is one `Newline` token per non-blank line.
- **Parser.** The grammar is written as predicates on category sequences
  (`Grammar.IsProgram` and friends). The parser is proved sound and complete for it: it
  accepts a scanned token list exactly when its categories form a program. The model
  recurses without bound. Python stops at its recursion limit, so "exactly" holds only
  for inputs that stay within that limit (see "Left out").
- **Recognisers.** Each recogniser is proved to produce a closed-form outcome for every
  input, and its accepted language is characterised exactly. For sp.py this too holds only
  up to Python's recursion limit.

Character classes are ASCII. `isspace` is space, 9-13 and 28-31. `isdigit` is `0`-`9`.
`isalpha` is the Latin letters.

One consequence of the blank-line rule is easy to miss. A source of only whitespace scans
to the single `Eof` token, and that includes the newline appended by `main`
(parser1.py:242-243). The rule in `getchar` (parser1.py:129-134) turns that newline into a
skipped space. `program -> stmt* EOF` (parser1.py:220) then accepts the source as the
empty program. So a file holding only "\n" is accepted; it does not scan to a `Newline`
token followed by `Eof` (`FrontEnd.RunOnBlankInputs`, `FrontEnd.BlankSourceAccepted`).

Where the code and its comments disagree, the model follows the code:

- **Ch4Q1.py's grammar.** The header gives the grammar S -> 'a' S 'b' | 'c' and claims it
  rewrites to S -> ('a')* 'c' 'b'. The code implements neither. It accepts exactly "c" and
  a^n c b for n >= 1. "aacbb" is in the header grammar but is reported as garbage
  (`Ch4Q1.HeaderGrammarNotImplemented`). "cb" is in the claimed rewrite but is reported as
  garbage (`Ch4Q1.ClaimedRewriteNotImplemented`).

## Model

| member | source | states |
|---|---|---|
| Chars.ChText | parser1.py:92-94 | the lexeme of a one-character token: empty exactly at end of input, otherwise the character itself |
| Tokens.Spelling | parser1.py:22-34 | the fixed spelling of each category; only integers, names and errors have none |
| Tokens.Keyword | parser1.py:53 | the keyword table: `print` is the only keyword, and its category is spelled `print` |
| Tokens.WordCategory | parser1.py:87-91 | a word is `Print` exactly when it is `print`, and a `Name` otherwise |
| Tokens.SmallToken | parser1.py:56-57 | the one-character table: each entry's category is spelled by that character; `Eof` exactly for end of input |
| Tokens.SmallTokenCoversSpellings | parser1.py:56-57 | every category with a one-character spelling, other than the keyword, is in the table under that character |
| Source.GetChar | parser1.py:111-136 | getchar: one character further while input remains; at the end, `EndCh`, column 1 and no move; the line advances and the column restarts exactly after a newline; the line stays blank exactly while only whitespace is read; a newline reads as a space exactly when it ends a blank line, and every other character reads as itself |
| Source.ExhaustedReadIsFixedPoint | t1.py:112-120 | once input is exhausted, further reads return the end sentinel and leave the state unchanged |
| Source.GetCharStep | t1.py:107-132 | reading from the state after position k gives the state and character of position k+1, as described by position functions rather than counters |
| Source.CursorPosition | parser1.py:116-128 | the line and column held after reading position k are its 1-based line and column in the source |
| Scanner.SkipSpaces | parser1.py:65-67 | skipping stops at a newline or a non-space character and never moves backwards |
| Scanner.ScanRun | parser1.py:74-85 | a digit or word run: non-empty, made of run characters, stops at the first character outside the run |
| Scanner.ScanToken | parser1.py:69-99 | one token at the scanner's line and column, consistent with its category; `Eof` exactly at end of input; fails exactly on a character that starts no token, with an `Error` token holding it |
| Scanner.ScanFrom | parser1.py:64-106 | the loop: on success a token list with exactly one `Eof`, last, every token classified |
| Scanner.Tokenize | parser1.py:60-106 | the scanner from its primed state: the same guarantees for the whole source |
| ScanSpec.NextKept | parser1.py:65-67 | the first position at or after k that is not skipped whitespace |
| ScanSpec.RunEnd | t1.py:70-81 | the end of the maximal digit or word run from k |
| ScanSpec.RefToken | t1.py:68-95 | the reference token at a position: `Eof` exactly at the end, otherwise at least one character consumed |
| ScanSpec.SkipMatches | t1.py:62-63 | the skip loop lands on the next kept position |
| ScanSpec.RunMatches | t1.py:70-81 | the run loops consume exactly the maximal run, and the state is that of its end |
| ScanSpec.TokenMatches | t1.py:66-95 | one step of the scanner equals one reference token |
| ScanSpec.ScanFromMatches | t1.py:60-102 | the scanner loop from any position equals the reference scan from there |
| ScanSpec.TokenizeMatchesReference | parser1.py:60-106 | the scanner equals the position-based reference scanner on every source |
| ScanProperties.TokenizeRoundTrip | t1.py:66-97 | on success the lexemes concatenate to the source without skipped whitespace and without the newlines of blank lines |
| ScanProperties.TokenPositions | parser1.py:70 | every token but `Eof` is the source text at a position whose line and column it carries, and runs are maximal; `Eof` sits in column 1 of the line after the last newline |
| ScanProperties.TokenizeFailsAtFirstInvalid | parser1.py:96-99 | the scan fails exactly when some character starts no token, and reports the first one with its line and column |
| ScanProperties.WhitespaceSourceIsEof | parser1.py:129-134 | blank-line collapse: a source of whitespace and newlines only yields the `Eof` token alone |
| ScanProperties.NewlinesCountNonBlankLines | t1.py:125-130 | there is exactly one `Newline` token per newline that ends a line holding a non-whitespace character |
| Parser.Advance | parser1.py:145-150 | the cursor moves one token on, and fails with "unexpected end" past the last token |
| Parser.Consume | parser1.py:153-157 | moves past the current token exactly when it has the expected category; otherwise fails on it, naming the category |
| Parser.ParseFactor | parser1.py:194-210 | factor: consumes at least one token, and never runs off a list that ends in `Eof` |
| Parser.ParseTermTail | parser1.py:189-191 | the `*` loop stops on a token other than `*` |
| Parser.ParseTerm | parser1.py:187-191 | term: consumes at least one token and stops on a token other than `*` |
| Parser.ParseExprTail | parser1.py:215-217 | the `+` loop stops on a token that is neither `+` nor `*` |
| Parser.ParseExpr | parser1.py:213-217 | expr: consumes at least one token and stops on a token that is neither `+` nor `*` |
| Parser.ParseAssignment | parser1.py:160-163 | an assignment consumes at least one token and stops on a token other than `+` or `*` |
| Parser.ParsePrint | parser1.py:166-170 | a print statement consumes at least one token |
| Parser.ParseSimpleStmt | parser1.py:173-179 | a token other than a name or `print` fails with "expecting statement" on that token |
| Parser.ParseStmt | parser1.py:182-184 | a statement consumes at least one token |
| Parser.ParseProgram | parser1.py:222-226 | on success stops on an `Eof` token; never runs off a list that ends in `Eof` |
| Parser.Parse | parser1.py:140-142 | the parser: on success stops on `Eof`; an empty list fails with "unexpected end", and a list ending in `Eof` never does |
| Grammar.TermSplit | parser1.py:187-191 | a derivation of term splits into a factor and a `*`-tail |
| Grammar.ProgramSplit | parser1.py:222-224 | a program other than `Eof` alone splits into a statement and a program |
| ParserCorrect.FactorSound | parser1.py:194-210 | what factor consumes derives from the factor rule |
| ParserCorrect.TermTailSound | parser1.py:189-191 | what the `*` loop consumes derives from (TIMES factor)* |
| ParserCorrect.TermSound | parser1.py:187-191 | what term consumes derives from the term rule |
| ParserCorrect.ExprTailSound | parser1.py:215-217 | what the `+` loop consumes derives from (PLUS term)* |
| ParserCorrect.ExprSound | parser1.py:213-217 | what expr consumes derives from the expr rule |
| ParserCorrect.AssignmentSound | parser1.py:160-163 | an assignment followed by a newline derives from stmt |
| ParserCorrect.PrintSound | parser1.py:166-170 | a print statement followed by a newline derives from stmt |
| ParserCorrect.StmtSound | parser1.py:182-184 | what stmt consumes derives from the stmt rule |
| ParserCorrect.ProgramSound | parser1.py:222-226 | what program consumes, up to and including `Eof`, derives from program |
| ParserCorrect.FactorComplete | parser1.py:194-210 | every factor derivation is consumed by factor, exactly |
| ParserCorrect.TermTailComplete | parser1.py:189-191 | every (TIMES factor)* derivation not followed by `*` is consumed exactly |
| ParserCorrect.TermComplete | parser1.py:187-191 | every term derivation not followed by `*` is consumed exactly |
| ParserCorrect.ExprTailComplete | parser1.py:215-217 | every (PLUS term)* derivation not followed by `+` or `*` is consumed exactly |
| ParserCorrect.ExprComplete | parser1.py:213-217 | every expr derivation not followed by `+` or `*` is consumed exactly |
| ParserCorrect.StmtComplete | parser1.py:182-184 | every statement derivation is consumed exactly |
| ParserCorrect.ProgramComplete | parser1.py:222-226 | every program derivation is consumed up to its `Eof` |
| ParserCorrect.ParseDecidesGrammar | parser1.py:140-142 | the parser succeeds exactly when some prefix of the categories is a program, and then the prefix up to where it stops is one |
| ParserCorrect.ProgramEndsInEof | parser1.py:220-226 | every program ends in `Eof` |
| ParserCorrect.ParseAcceptsPrograms | parser1.py:140-142 | on a scanned token list the parser succeeds exactly when the categories form a program |
| FrontEnd.WithFinalNewline | parser1.py:242-243 | the fix-up: the result ends in a newline and extends the source by at most that newline |
| FrontEnd.Check | parser1.py:247-255 | scanning then parsing: success returns the scanned tokens; a scan error is reported before any parse; "unexpected end" never surfaces |
| FrontEnd.Run | parser1.py:229-255 | a run: fails on the empty file, otherwise checks the fixed-up source |
| FrontEnd.CheckDecides | parser1.py:247-249 | a source is accepted exactly when every character starts a token and the categories form a program; the error is a scan error exactly when some character starts no token |
| FrontEnd.CheckRoundTrip | parser1.py:247-249 | an accepted source's tokens spell its significant characters |
| FrontEnd.BlankSourceAccepted | parser1.py:222-226 | a whitespace-only source is accepted with the single `Eof` token |
| FrontEnd.RunOnBlankInputs | parser1.py:242-243 | the empty file is refused, and a file holding only a newline is accepted |
| FrontEnd.AssignmentSumAccepted | parser1.py:160-163 | the tokens of `x = 1 + 2` parse |
| FrontEnd.PrintSumAccepted | parser1.py:166-170 | the tokens of `print(1+2)` parse |
| FrontEnd.PrintWithoutParenRejected | parser1.py:168 | the tokens of `print 1)` fail on `1`, expecting a left parenthesis |
| FrontEnd.MissingOperandRejected | parser1.py:209-210 | the tokens of `x = +` fail on the newline, expecting a factor |
| FrontEnd.BinaryMinusRejected | parser1.py:182-184 | the tokens of `x = 1 - 2` fail on `-`, expecting a newline |
| FrontEnd.NestedSignsAccepted | parser1.py:198-200 | the tokens of `x = --5` parse |
| CharCursor.Peek | Ch4Q1.py:28-35 | advance: the character at the cursor, and the end sentinel exactly when the cursor is past the input |
| CharCursor.Consume | Ch4Q1.py:38-42 | consume, identical in sp.py:41-45: moves past the current character exactly when it is the expected one; otherwise fails with that recogniser's "expecting" error and does not move |
| CharCursor.LeadingRun | Ch4Q1.py:63-64 | the length of the run of a character that starts the input |
| Ch4Q1.SkipAs | Ch4Q1.py:63-64 | the loop of A stops on the first character that is not 'a' |
| Ch4Q1.A | Ch4Q1.py:62-66 | A consumes input that ends in "cb" |
| Ch4Q1.B | Ch4Q1.py:69-73 | B consumes a 'b' exactly when one is next, and fails with "expecting b" otherwise |
| Ch4Q1.C | Ch4Q1.py:75-79 | C consumes a 'c' exactly when one is next, and fails with "expecting c" otherwise |
| Ch4Q1.S | Ch4Q1.py:53-59 | S consumes at least one character, and C's own "expecting c" branch (Ch4Q1.py:79) never fires, since S calls C only on a 'c' |
| Ch4Q1.Recognise | Ch4Q1.py:45-50 | C's own "expecting c" error never reaches the outcome; consume's message with the same wording still can (see `Ch4Q1.MissingCAfterRunFails`) |
| Ch4Q1.RecogniseOutcome | Ch4Q1.py:45-79 | every input gets its closed-form outcome: the error for a bad first character, a missing 'c' or a missing 'b'; garbage for leftover input |
| Ch4Q1.AcceptedLanguage | Ch4Q1.py:45-79 | the cleanly accepted inputs are exactly "c" and a^n c b for n >= 1 |
| Ch4Q1.HeaderGrammarNotImplemented | Ch4Q1.py:2-5 | "aacbb" derives from the header grammar, but the recogniser reports garbage |
| Ch4Q1.ClaimedRewriteNotImplemented | Ch4Q1.py:5 | "cb" is in the claimed rewrite's language, but the recogniser reports garbage |
| Ch4Q1.MissingCAfterRunFails | Ch4Q1.py:62-65 | "a" and "ab" fail in A's consume with "expecting c": only C's own branch is dead |
| Sp.A | sp.py:61-63 | A succeeds exactly on "ab", and otherwise names the first missing character |
| Sp.C | sp.py:66-75 | C consumes a run of 'c' ending in 'd', or fails with "expecting c or d" |
| Sp.S | sp.py:56-58 | S consumes at least three characters |
| Sp.Recognise | sp.py:48-53 | a clean accept starts with "ab" and ends in 'd' |
| Sp.CConsumesRun | sp.py:66-75 | C from any position consumes exactly the run of 'c' there and the 'd' after it, or fails |
| Sp.RecogniseOutcome | sp.py:48-75 | every input gets its closed-form outcome, with garbage for leftover input |
| Sp.AcceptedLanguage | sp.py:3-6 | the cleanly accepted inputs are exactly "ab" c^k "d" for k >= 0, the grammar's language |

## Left out

- The `main` functions' file and argument handling is not modelled: opening the file, the wrong-argument-count exit and `sys.exit`. The input text is a parameter. For Ch4Q1.py and sp.py a missing argument reads as the empty string, as `advance` does.
- The trace printing of each token, the trace header and `catnames` are output only.
- Diagnostic texts are not modelled. Errors are values that name what was expected and the offending token, so the message strings do not appear. This includes the unformatted placeholder in `consume`'s message (parser1.py:157, no `f` prefix), which only affects the text. It also includes the replacement of newlines by `\n` when the lexeme is shown.
- If the input file cannot be read, parser1.py prints a message and goes on with the empty source. The model's `FrontEnd.Run` on "" covers that continuation: `source[-1]` raises `IndexError`, modelled as `EmptySource`.
- Python's recursion limit is not modelled. The model recurses without bound. CPython raises `RecursionError` once calls nest about 1000 deep; the limit depends on the interpreter and its settings. That error is a `RuntimeError`, so `main` reports it like any parse error (parser1.py:250-255, sp.py:24-28). The program recurses once per 'c' in sp.py's `C` (sp.py:66-70). In parser1.py it recurses once per unary sign or parenthesis in `factor` (parser1.py:195-208). Ch4Q1.py is unaffected, because its run of 'a' is a loop. The lines below name the theorems that promise more than the program delivers on such inputs.
- Sp.AcceptedLanguage: claims `Accepted` for "ab" c^k "d" with any k. For k around 1000 or more, the program reports a recursion error instead.
- Sp.RecogniseOutcome: same bound. Long runs of 'c' end in a recursion error in the program, not in the closed-form outcome.
- Sp.CConsumesRun: same bound on the length of the run of 'c'.
- FrontEnd.CheckDecides: says a source is accepted whenever its categories form a program. A statement such as `x = ` followed by about 1000 signs and `5` is one, but the program reports a recursion error.
- ParserCorrect.ParseAcceptsPrograms: the same bound on the nesting of signs and parentheses.
- ParserCorrect.ParseDecidesGrammar: the same bound on the nesting of signs and parentheses.
- Character classes are ASCII only. Python's `isspace`, `isdigit`, `isalpha` and `isalnum` also accept non-ASCII characters such as other Unicode digits and letters.
- The sample lemmas in `FrontEnd` (`x = 1 + 2`, `print 1)` and the rest) state the parse of the token lists those lines scan to. They do not state the scan of the concrete strings, which the general scanner theorems cover.
