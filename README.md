# Prethon parser core in Dafny

Prethon is a Python-based template preprocessor. A template file mixes literal text with regions:

- directive code `<@ … @>`;
- expressions `<$ … $>`;
- quotes `<# header: body #>`, whose body may hold continuation lines `## …` ended by a line break.

The preprocessor reads the file line by line and splits each line into literal runs and delimiters (`tokenize`). It drives a parser object with three parallel stacks:

- the mode stack;
- one text accumulator per open mode;
- one statement buffer per open quote.

A flush turns the text accumulated for the top mode into a Python statement, re-indented by `fix_ws`, and runs it; with line numbers enabled it then runs a `#line` statement, which is not re-indented. A push onto a non-empty stack first flushes the mode it interrupts; a push onto an empty stack flushes nothing. A pop of any mode but a quote body flushes that mode. A pop of a quote body discards its accumulator and instead runs the fragment `quote_fn` composes from the quote buffer: the header and the body, each re-indented on its own. Running a statement executes it, or defers it into the innermost quote buffer while a quote is open.

This project models that core of `prethon.py`:

| module | models |
|---|---|
| `Wrappers` | the `Option` type; `None` is an operation that raises |
| `Text` | the Python built-ins the core uses: `''.join`, `str.split('\n')`, `'\n'.join`, `str.find`, `str.count('\n')`, the whitespace class shared by `str.strip` and `\s`, and the decimal `%s` of an integer |
| `Tokenizer` | the delimiter table and `tokenize`, as a recursive function with its scan over the table |
| `Indent` | `fix_ws`, as a declarative function: the common leading whitespace of the non-blank lines is stripped, then every line is re-indented |
| `Machine` | the reference semantics of `push`, `pop`, `flush`, `run`, `quote_fn`, `_emit`, one dispatch step of `pre` and the whole of `pre`, as functions on a state value |
| `Parser` | the `ParserState` class, with the stacks as fields updated in place; its methods include `fix_ws` with its two loops; each method is proved to leave the object in the state the `Machine` function computes |
| `Driver` | `pre`: the nested line and token loops over the object, proved equal to `Machine.Process` |
| `Invariants` | the stack invariant: one accumulator per mode, a buffer for every open quote, no continuation outside a quote. It covers what each token does to the mode stack, exactly when a step raises, and the deferral of statements while a quote is open |
| `Runs` | whole runs: the line counter, the invariant over a run, that a file opened in quote-body mode always raises, and that a file without regions is executed as one `emit` of its text |
| `Statements` | the shape of the statements `flush` and `quote_fn` produce |

The model abstracts the environment as follows:

- `exec(s, globals)` appends `s` to the `executed` log of the state.
- Python's `repr` on strings is the parameter `Config.repr`. Where a property needs it, `repr` is assumed never to produce a raw line break (`ReprOk`).
- The `output_line_nos` option is `Config.lineNos`.
- The file is given as the sequence of lines its iteration yields.
- An `IndexError` on an empty list means the operation yields `None` in `Machine`, `ok == false` in `Driver`, and appears as an explicit precondition on the class methods.

## Model

| member | source | states |
|---|---|---|
| Tokenizer.DelimsNonEmpty | prethon.py:73-84 | the table has nine delimiters, none of them empty |
| Tokenizer.ScanFrom | prethon.py:206-210 | the loop over the table finds the least `find` offset of any delimiter, keeping the first table entry among those that reach it (strict `<`), or nothing when none occurs |
| Tokenizer.ScanStep | prethon.py:207-210 | one loop iteration keeps that meaning for the entries seen so far |
| Tokenizer.Earliest | prethon.py:204-210 | a hit found is an occurrence of a non-empty table entry |
| Tokenizer.EarliestMeaning | prethon.py:204-212 | the hit is the earliest-starting delimiter, the first in table order among those starting there; no hit means no delimiter occurs anywhere |
| Tokenizer.LiteralBeforeEarliest | prethon.py:213 | the literal cut before the earliest delimiter contains no delimiter |
| Tokenizer.Tokenize | prethon.py:202-218 | the tokens concatenate back to the line; there are none exactly for the empty line |
| Tokenizer.TokenizeUnfold | prethon.py:212-215 | more than one token means a delimiter was cut: the literal before it, the delimiter, then the tokens of the rest |
| Tokenizer.TokenizeTail | prethon.py:215 | after the first two tokens come the tokens of the strictly shorter remainder |
| Tokenizer.TokenizeAlternates | prethon.py:202-218 | tokens alternate between literals holding no delimiter (even positions) and table delimiters (odd positions); the list never ends with an empty literal |
| Tokenizer.TokenizeHead | prethon.py:204-215 | the first delimiter token is the earliest delimiter of the whole line, ties to table order |
| Tokenizer.TokenizeEarliest | prethon.py:203-215 | every delimiter token is the earliest delimiter of the text remaining after the tokens before it, ties to table order |
| Text.Spaces | prethon.py:191 | `' ' * n` is `n` spaces |
| Text.Split | prethon.py:173 | `split('\n')` yields at least one piece, none holding a line break |
| Text.SplitCount | prethon.py:173 | the number of pieces is one more than the number of line breaks |
| Text.JoinSplit | prethon.py:173 | `'\n'.join(s.split('\n')) == s` |
| Text.SplitJoin | prethon.py:191-193 | splitting the join of break-free lines gives the lines back |
| Text.SplitAppend | prethon.py:169 | splitting at a line break splits the two sides |
| Text.SplitLastChar | prethon.py:161-162 | a text not ending in a line break has a non-empty last line ending in its last character |
| Text.ConcatAppend | prethon.py:126 | `''.join` of two lists joined is the join of each |
| Text.AppendLast | prethon.py:197 | `s[-1] += xs` changes the last element only, by appending `xs` |
| Text.FindFrom | prethon.py:207 | `find` from an offset: the least offset of an occurrence, or -1 exactly when there is none |
| Text.Find | prethon.py:207 | `s.find(d)` is -1 exactly when `d` does not occur, otherwise the first occurrence |
| Text.NatToString | prethon.py:143 | the `%s` of the line number is a non-empty string of decimal digits |
| Text.NatToStringValue | prethon.py:143 | those digits denote the number back, without a leading zero |
| Indent.LeadingWs | prethon.py:181 | `re.match('\\s*', line)` is the longest whitespace prefix |
| Indent.WsPrefixWithinLeading | prethon.py:181 | any whitespace prefix of the line lies within it |
| Indent.CommonPrefix | prethon.py:184-187 | the common prefix of two strings that cannot be extended |
| Indent.CommonPrefixUnique | prethon.py:184-187 | any unextendable common prefix is that one |
| Indent.CommonPrefixLongest | prethon.py:184-187 | every shared prefix is at most as long |
| Indent.CommonWs | prethon.py:175-187 | the candidate prefix after the loop is whitespace only |
| Indent.CommonWsNone | prethon.py:177-182 | there is no candidate exactly when every line is blank |
| Indent.CommonWsPrefix | prethon.py:175-190 | the candidate begins every non-blank line |
| Indent.CommonWsLongest | prethon.py:175-187 | no longer whitespace prefix is shared by all non-blank lines |
| Indent.WidthIsLongestSharedWs | prethon.py:175-190 | the amount stripped is the same for every non-blank line, whitespace only, and the longest such amount; it is 0 when all lines are blank |
| Indent.WidthZeroWhenUnindented | prethon.py:180-190 | nothing is stripped once a non-blank line starts with a non-whitespace character |
| Indent.Reindent | prethon.py:190-191 | the two list comprehensions keep one line per input line |
| Indent.FixWs | prethon.py:172-193 | the result is never empty and ends with a line break |
| Indent.FixWsShape | prethon.py:172-193 | one output line per input line (line breaks plus one); blank lines are kept whole after the indent; the others lose the same whitespace prefix and get the indent |
| Indent.FixWsIndented | prethon.py:191-193 | each output line starts with `indent` spaces |
| Indent.FixWsLineAt | prethon.py:190-191 | the output line for a non-blank input line |
| Indent.FixWsColon | prethon.py:161-162 | a block ending in a colon keeps the colon at the end of its last line |
| Indent.FixWsEmpty | prethon.py:172-193 | `fix_ws('')` is the indent followed by a line break |
| Indent.FixWsEmitLine | prethon.py:131 | `emit(x)\n` with `x` free of line breaks keeps its text and gains one indented empty line |
| Machine.Run | prethon.py:146-155 | while `QUOTE` is anywhere on the mode stack the statement is queued in the innermost buffer and nothing runs (raising without a buffer); otherwise a non-empty statement is appended to the executed log and the buffers are unchanged |
| Machine.Flushed | prethon.py:140-144 | `flush` runs one statement, two with line numbers, and none of them is empty |
| Machine.Flush | prethon.py:124-144 | raises exactly without an accumulator, or without a buffer when one is needed; the top accumulator is emptied, every length kept; raw quote text and the statements go to the buffer while a quote is open, otherwise the statements are executed |
| Machine.Push | prethon.py:103-112 | raises exactly when the flush of the old top does; otherwise appends the mode and an empty accumulator, and an empty buffer exactly for a quote header; on a non-empty stack the executed log and the buffers are those the flush of the interrupted top leaves, and its accumulator is emptied; on an empty stack nothing else changes |
| Machine.QuoteFn | prethon.py:157-169 | raises exactly on an empty buffer (`blocks[0]`) |
| Machine.Pop | prethon.py:114-122 | raises exactly when `PopOk` fails; removes the top mode and accumulator, and a buffer exactly when closing a quote body, whose composed fragment is run (deferred inside an outer quote); any other mode is flushed |
| Machine.Emit | prethon.py:196-200 | the token joins the top accumulator; a statement `emit(repr(tok))` is queued exactly when the top is `QUOTE` and the token is non-empty; raises exactly on empty stacks or a missing buffer |
| Machine.ClassifyCases | prethon.py:241-261 | which delimiters open, close, or act only under a given top mode |
| Machine.Dispatch | prethon.py:238-263 | a step advances the line counter by the token's line breaks |
| Machine.DispatchOpenCase | prethon.py:241-252 | `<@`, `<$` and `<#` push `PRE`, `EXPR` and `QUOTE_H` |
| Machine.DispatchCloseCase | prethon.py:243-249 | `@>`, `$>` and `#>` pop, whatever the top mode |
| Machine.DispatchTextCase | prethon.py:262-263 | a token that is no delimiter is emitted |
| Machine.DispatchUnguardedCase | prethon.py:253-263 | `:`, `##` and a line break whose guard fails are emitted as literal text |
| Machine.DispatchEmptyCase | prethon.py:253-258 | `:`, `##` and a line break raise on an empty mode stack (`state.mode[-1]`) |
| Machine.DispatchHeaderEndCase | prethon.py:253-255 | `:` on a quote header pops it and pushes a quote body |
| Machine.DispatchContStartCase | prethon.py:256-257 | `##` on a quote body pushes a continuation |
| Machine.DispatchContEndCase | prethon.py:258-259 | a line break on a continuation pops it |
| Machine.Statement | prethon.py:128-139 | definition |
| Machine.Raw | prethon.py:136-137 | definition |
| Machine.LineMarker | prethon.py:143 | the line-number statement is never empty |
| Machine.EmitStatement | prethon.py:199 | definition |
| Machine.Classify | prethon.py:241-261 | definition |
| Machine.Counted | prethon.py:239 | definition |
| Machine.Act | prethon.py:241-263 | definition |
| Machine.RunTokens | prethon.py:238-263 | definition |
| Machine.RunLines | prethon.py:237-263 | definition |
| Machine.Finish | prethon.py:237-266 | definition |
| Machine.Process | prethon.py:220-266 | definition |
| Text.IsWs | prethon.py:178 | definition |
| Text.CountNl | prethon.py:239 | definition |
| Text.Concat | prethon.py:126 | definition |
| Text.Join | prethon.py:169 | definition |
| Tokenizer.Remainder | prethon.py:215 | definition |
| Indent.Width | prethon.py:175-187 | definition |
| Parser.ParserState.constructor | prethon.py:88-101 | empty stacks, indent 0, line 1, then `push(mode)` |
| Parser.ParserState.Push | prethon.py:103-112 | the object ends in the state `Machine.Push` computes |
| Parser.ParserState.Pop | prethon.py:114-122 | the object ends in the state `Machine.Pop` computes |
| Parser.ParserState.Flush | prethon.py:124-144 | the object ends in the state `Machine.Flush` computes |
| Parser.ParserState.Run | prethon.py:146-155 | the object ends in the state `Machine.Run` computes |
| Parser.ParserState.QuoteFn | prethon.py:157-169 | the result is `Machine.QuoteFn`'s, and `indent` is the same after the call as before |
| Parser.ParserState.FixWs | prethon.py:172-193 | the two loops compute the declarative `Indent.FixWs` |
| Parser.CommonWsSnoc | prethon.py:177-187 | how one more line changes the common whitespace: blank lines are skipped, the first non-blank line sets it, later ones narrow it |
| Parser.Narrow | prethon.py:184-187 | the inner loop cuts the candidate at the first column where the line differs or ends, giving the common prefix of the candidate and the line's leading whitespace |
| Parser.NarrowedPrefix | prethon.py:184-187 | such a cut is that common prefix |
| Parser.Emit | prethon.py:196-200 | the object ends in the state `Machine.Emit` computes |
| Driver.Step | prethon.py:238-263 | one iteration of the token loop succeeds exactly when `Machine.Dispatch` does, and leaves its state |
| Driver.DispatchLiteral | prethon.py:253-263 | the tokens the chain falls through on are emitted |
| Driver.TryPush | prethon.py:242 | `state.push(m)` succeeds exactly when `Machine.Push` does, and leaves its state |
| Driver.TryPop | prethon.py:244 | `state.pop()` succeeds exactly when `Machine.Pop` does, and leaves its state |
| Driver.TryEmit | prethon.py:263 | `_emit` succeeds exactly when `Machine.Emit` does, and leaves its state |
| Driver.RemainingLine | prethon.py:237-238 | a run from a line on is the line's tokens, then the rest |
| Driver.RemainingToken | prethon.py:238 | a failing step ends the run; otherwise the run continues from its state |
| Driver.Pre | prethon.py:220-266 | `pre` finishes exactly when `Machine.Process` does, and the object then holds that state |
| Invariants.CountQIn | prethon.py:111-117 | at least one buffer is owed exactly when a quote header or body is open |
| Invariants.BufferExists | prethon.py:137 | under the invariant a buffer exists whenever a quote header, body or continuation is open |
| Invariants.FlushOkTop | prethon.py:124-141 | under the invariant flushing an open mode never raises |
| Invariants.FlushOkClosing | prethon.py:114-120 | under the invariant the flush closing a non-quote mode never raises |
| Invariants.PushInv | prethon.py:103-112 | a push keeps the invariant |
| Invariants.PopInv | prethon.py:114-122 | a pop keeps the invariant |
| Invariants.PopOkInv | prethon.py:114-122 | under the invariant a pop raises exactly on an empty mode stack or when closing a quote body with an empty buffer |
| Invariants.DispatchModes | prethon.py:241-263 | opening tokens push their mode; closing tokens pop whatever is on top; `:` turns a quote header into a quote body; `##` opens a continuation; a line break closes it; every other token leaves the mode stack and the executed log alone and is appended to the top accumulator (under a `QUOTE` top a non-empty token also queues its `emit` statement, as `Machine.Emit` states); `len(cur_block) == len(mode)` is kept |
| Invariants.DispatchInv | prethon.py:238-263 | every dispatch step keeps the invariant |
| Invariants.DispatchInvOpen | prethon.py:241-252 | so do the opening tokens |
| Invariants.DispatchInvClose | prethon.py:243-261 | so do the closing tokens |
| Invariants.DispatchInvText | prethon.py:262-263 | so does literal text |
| Invariants.DispatchInvHeaderEnd | prethon.py:253-255 | so does `:` |
| Invariants.DispatchInvContStart | prethon.py:256-257 | so does `##` |
| Invariants.DispatchInvContEnd | prethon.py:258-259 | so does a line break |
| Invariants.OpenInv | prethon.py:241-252 | pushing `PRE`, `EXPR` or `QUOTE_H` keeps the invariant |
| Invariants.ContStartInv | prethon.py:256-257 | pushing a continuation on a quote body keeps it |
| Invariants.EmitInv | prethon.py:196-200 | `_emit` keeps it |
| Invariants.HeaderEndInv | prethon.py:253-255 | replacing a quote header by a quote body keeps it |
| Invariants.DispatchFails | prethon.py:238-263 | under the invariant a step raises exactly when the mode stack is empty and the token opens nothing, or when a closing token meets a quote body whose buffer is empty |
| Invariants.HeaderEndOk | prethon.py:253-255 | under the invariant `:` on a quote header never raises |
| Invariants.DispatchDeferred | prethon.py:146-149 | while a quote stays open across a step nothing is executed |
| Invariants.HeaderEndDeferred | prethon.py:253-255 | `:` inside an outer quote executes nothing |
| Runs.RunTokensLineno | prethon.py:238-239 | the token loop adds the line breaks of the tokens to the line counter |
| Runs.RunLinesLineno | prethon.py:237-239 | the line loop adds the line breaks of the lines |
| Runs.ProcessLineno | prethon.py:100 | after a run the counter is 1 plus the number of line breaks in the file |
| Runs.StartInv | prethon.py:88-101 | opening the file in any mode but a quote body or continuation establishes the invariant |
| Runs.RunTokensInv | prethon.py:238-263 | the token loop keeps the invariant |
| Runs.RunLinesInv | prethon.py:237-263 | the line loop keeps it |
| Runs.ProcessInv | prethon.py:220-266 | a whole run keeps it, final pop included |
| Runs.DispatchStuck | prethon.py:148-149 | opened directly in quote-body mode, with no buffer, only an empty literal does not raise |
| Runs.RunTokensStuck | prethon.py:238-263 | that state persists through the token loop |
| Runs.RunLinesStuck | prethon.py:237-263 | and through the line loop |
| Runs.QuoteStartFails | prethon.py:101 | `pre` started in quote-body mode always raises |
| Runs.PlainToken | prethon.py:202-218 | a token of a line without region delimiters neither opens nor closes |
| Runs.PlainTokens | prethon.py:202-218 | so does every token of such a line |
| Runs.PlainStep | prethon.py:262-263 | at top level in normal mode such a token only joins the accumulator |
| Runs.PlainDispatch | prethon.py:253-263 | under a normal top such a token is emitted |
| Runs.PlainEmit | prethon.py:196-198 | `_emit` at top level in normal mode just appends |
| Runs.RunTokensPlain | prethon.py:238-263 | a line of such tokens only grows the accumulator and the counter |
| Runs.PlainLine | prethon.py:237-263 | a line without region delimiters is appended whole to the accumulator |
| Runs.RunLinesPlain | prethon.py:237-263 | so are all lines of such a file |
| Runs.PlainClose | prethon.py:266 | the closing pop flushes the whole accumulator as normal text |
| Runs.FlushedNormal | prethon.py:130-144 | the statements flushed for normal text at indent 0 |
| Runs.NormalStatement | prethon.py:130-140 | the re-indented statement for normal text at indent 0 |
| Runs.PlainStart | prethon.py:88-112 | the start state in normal mode |
| Runs.PlainEnd | prethon.py:266 | the closing pop of a plain run |
| Runs.PlainTextPassesThrough | prethon.py:220-266 | a normal-mode file without region delimiters runs as one `emit(repr(text))` of its whole text (an empty line for an empty file), then one line marker when enabled |
| Statements.FlushedStatement | prethon.py:128-140 | the re-indented statement per mode: `emit(repr(block))` for normal text and `emit(block)` for a one-line expression, each followed by an indented empty line; the block re-indented for code; only the indent and a line break for an empty block and for the quote modes |
| Statements.QuoteFnLayout | prethon.py:157-169 | `quote_fn` yields the header lines at the current indent, the last ending with the colon, then an empty line, then the body lines four columns deeper, then a final line break |
| Statements.HeaderLines | prethon.py:158-162 | the header has one line more than line breaks, each indented, the last ending with the colon |

## Left out

- `main` and `usage` (prethon.py:275-326) are left out as command-line glue. That covers argument parsing, `sys.exit`, opening the output file and writing the dependency file.
- `emit` (prethon.py:49-51) is left out; it writes to the output stream of the global state. What reaches the output depends on running the executed statements, which the model does not do.
- `exec` and its exception report and re-raise (prethon.py:152-155) are out of scope, since they evaluate Python code. The model records each executed statement instead, and it says nothing about a statement that raises.
- `include` and `include_py` (prethon.py:54-67) are left out. They are only reachable from executed code, they read files, and they read `pre_state.variables`, which `ParserState` never defines.
- The save and restore of the global `pre_state` (prethon.py:232-233, 269) and `PreData` are left out as plumbing for executed code.
- The `ParserState` fields `last_mode`, `last_len`, `quote`, `last_quote`, `emit`, `path` and `out` are left out, since the core never reads them.
- The escaping rules of `repr` are left out. `repr` is a parameter, assumed only where needed to produce no raw line break.
- File reading is left out; `pre` takes the lines iteration would yield.
- The state after an exception is left out. A raising operation yields `None`, or `ok == false`, and the partial state is not modelled.
- `s is not ''` (prethon.py:150) is an identity test in Python; it is modelled as `s != ""`. Every statement `run` receives is non-empty anyway (`Machine.Flushed`, `Indent.FixWs`).
- Tokenizer.Tokenize is modelled as a function returning the token list, not as a Python generator, so laziness is not modelled.
- The `for d in delims` scan in `tokenize` and its `while s` loop are recursion here, because `tokenize` only computes a value from its input.
- Starting modes `QUOTE_CONT` and `QUOTE` are not covered by `Runs.StartInv`. `QUOTE` always raises (`Runs.QuoteStartFails`).

Notes on the code's behaviour that the model follows:

- `@>` and `$>` pop whatever the top mode is, just as `#>` does (prethon.py:243-249, 260-261).
- A `:`, `##` or line break whose guard fails is not skipped: it falls through to `_emit` as literal text (prethon.py:253-263).
- A quote header or continuation flush still runs `fix_ws('')`, the indent followed by a line break; that statement is deferred into the buffer, or executed outside a quote (prethon.py:136-141).
- `_emit` queues an `emit` statement in a quote body only for a non-empty token (prethon.py:198).
- `quote_fn` joins header and body with a line break (prethon.py:169).
- The mode stack can become empty before the end of the input, after an unmatched closing delimiter; the next `_emit`, guarded comparison or final pop then raises (prethon.py:197, 253-258, 266).
