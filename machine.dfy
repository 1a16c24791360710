/** The reference semantics of the parser state of prethon.py: the three parallel stacks of
    `ParserState` (prethon.py:87-193), `_emit` (prethon.py:196-200) and the token dispatch of
    `pre` (prethon.py:220-266), as functions on a state value. `None` is an operation that
    raises (an `IndexError` on an empty list). */
module Machine {
  import opened Wrappers
  import opened Text
  import Indent
  import opened Tokenizer

  /** The mode enumeration of prethon.py:37. */
  datatype Mode = Normal | Pre | Expr | QuoteH | QuoteCont | Quote

  /** What the parser takes from its environment: the `output_line_nos` option and Python's
      `repr` on strings. */
  datatype Config = Config(lineNos: bool, repr: string -> string)

  /** `repr` of a string never contains a raw line break (it escapes it as `\n`). */
  ghost predicate ReprOk(repr: string -> string) {
    forall s :: '\n' !in repr(s)
  }

  /** The fields of `ParserState` the parser uses; `executed` is the sequence of statements
      handed to `exec`, in order. */
  datatype State = State(
    mode: seq<Mode>,
    curBlock: seq<seq<string>>,
    quoteBlocks: seq<seq<string>>,
    indent: nat,
    lineno: nat,
    executed: seq<string>)

  /** The fields as `__init__` sets them before its `push`. */
  const Empty := State([], [], [], 0, 1, [])

  /** One text accumulator per open mode. */
  predicate Valid(st: State) {
    |st.curBlock| == |st.mode|
  }

  /** `run(s)`: while a quote is open anywhere on the mode stack the statement is queued in the
      innermost quote buffer; otherwise a non-empty statement is executed. */
  function Run(st: State, s: string): (r: Option<State>)
    ensures r.None? <==> Quote in st.mode && st.quoteBlocks == []
    ensures r.Some? ==> r.value.mode == st.mode && r.value.curBlock == st.curBlock
                        && r.value.indent == st.indent && r.value.lineno == st.lineno
    ensures r.Some? && Quote in st.mode ==>
              r.value.executed == st.executed && r.value.quoteBlocks == AppendLast(st.quoteBlocks, [s])
    ensures r.Some? && Quote !in st.mode ==>
              r.value.quoteBlocks == st.quoteBlocks
              && r.value.executed == st.executed + (if s == "" then [] else [s])
  {
    if Quote in st.mode then
      if st.quoteBlocks == [] then None
      else Some(st.(quoteBlocks := AppendLast(st.quoteBlocks, [s])))
    else if s != "" then Some(st.(executed := st.executed + [s]))
    else Some(st)
  }

  /** The statement `flush` generates from an accumulated block, before re-indentation. */
  function Statement(m: Mode, block: string, repr: string -> string): string {
    if block == "" then ""
    else match m
      case Normal => "emit(" + repr(block) + ")\n"
      case Pre => block
      case Expr => "emit(" + block + ")\n"
      case _ => ""
  }

  /** The raw text `flush` appends to the innermost quote buffer: a non-empty quote header or
      continuation block. */
  function Raw(m: Mode, block: string): seq<string> {
    if block != "" && (m == QuoteH || m == QuoteCont) then [block] else []
  }

  /** The line-number statement of prethon.py:143. */
  function LineMarker(n: nat): (r: string)
    ensures |r| > 0
  {
    "emit(\"\\n#line " + NatToString(n) + "\\n\")\n"
  }

  /** The statements `flush` runs, in order. */
  function Flushed(m: Mode, block: string, indent: nat, lineno: nat, cfg: Config): (ss: seq<string>)
    ensures |ss| == if cfg.lineNos then 2 else 1
    ensures forall i :: 0 <= i < |ss| ==> ss[i] != ""
  {
    var s := Indent.FixWs(Statement(m, block, cfg.repr), indent);
    [s] + if cfg.lineNos then [LineMarker(lineno)] else []
  }

  /** When `flush(m)` does not raise. */
  predicate FlushOk(st: State, m: Mode) {
    && |st.curBlock| > 0
    && ((Quote in st.mode || Raw(m, Concat(Last(st.curBlock))) != []) ==> st.quoteBlocks != [])
  }

  /** `flush(m)`: empties the top accumulator, turns its text into a statement for mode `m` and
      runs it, then the line marker when line numbers are enabled. */
  function Flush(st: State, m: Mode, cfg: Config): (r: Option<State>)
    ensures r.Some? <==> FlushOk(st, m)
    ensures r.Some? ==>
      var block := Concat(Last(st.curBlock));
      var ss := Flushed(m, block, st.indent, st.lineno, cfg);
      && r.value.mode == st.mode && r.value.indent == st.indent && r.value.lineno == st.lineno
      && r.value.curBlock == DropLast(st.curBlock) + [[]]
      && |r.value.quoteBlocks| == |st.quoteBlocks|
      && (Quote in st.mode ==>
            r.value.executed == st.executed
            && r.value.quoteBlocks == AppendLast(st.quoteBlocks, Raw(m, block) + ss))
      && (Quote !in st.mode ==>
            r.value.executed == st.executed + ss
            && r.value.quoteBlocks ==
                 if Raw(m, block) == [] then st.quoteBlocks else AppendLast(st.quoteBlocks, Raw(m, block)))
  {
    if |st.curBlock| == 0 then None
    else
      var block := Concat(Last(st.curBlock));
      var st1 := st.(curBlock := DropLast(st.curBlock) + [[]]);
      var raw := Raw(m, block);
      if raw != [] && st.quoteBlocks == [] then None
      else
        var st2 := if raw != [] then st1.(quoteBlocks := AppendLast(st.quoteBlocks, raw)) else st1;
        var st3 :- Run(st2, Indent.FixWs(Statement(m, block, cfg.repr), st.indent));
        var s := Indent.FixWs(Statement(m, block, cfg.repr), st.indent);
        var t := LineMarker(st.lineno);
        FlushedRuns(st.quoteBlocks, raw, s, t);
        assert [] + [s] == [s] && [] + [s, t] == [s, t] && [s] + [] == [s] && [s] + [t] == [s, t];
        if cfg.lineNos then Run(st3, LineMarker(st.lineno)) else Some(st3)
  }

  lemma FlushedRuns(qb: seq<seq<string>>, raw: seq<string>, s: string, t: string)
    ensures |qb| > 0 ==> AppendLast(AppendLast(qb, raw), [s]) == AppendLast(qb, raw + [s])
    ensures |qb| > 0 ==> AppendLast(AppendLast(AppendLast(qb, raw), [s]), [t]) == AppendLast(qb, raw + [s, t])
    ensures |qb| > 0 ==> AppendLast(qb, []) == qb
  {
    if |qb| > 0 {
      AppendLastTwice(qb, raw, [s]);
      AppendLastTwice(qb, raw + [s], [t]);
      assert raw + [s] + [t] == raw + [s, t];
      assert Last(qb) + [] == Last(qb);
    }
  }

  /** `push(m)`: flushes the current top mode, if any, then opens `m` with an empty accumulator
      and, for a quote header, an empty quote buffer. */
  function Push(st: State, m: Mode, cfg: Config): (r: Option<State>)
    ensures r.Some? <==> st.mode == [] || FlushOk(st, Last(st.mode))
    ensures r.Some? ==>
      && r.value.mode == st.mode + [m]
      && |r.value.curBlock| == |st.curBlock| + 1 && Last(r.value.curBlock) == []
      && |r.value.quoteBlocks| == |st.quoteBlocks| + (if m == QuoteH then 1 else 0)
      && (m == QuoteH ==> Last(r.value.quoteBlocks) == [])
      && r.value.indent == st.indent && r.value.lineno == st.lineno
    ensures r.Some? && st.mode == [] ==>
      && r.value.executed == st.executed && r.value.curBlock == st.curBlock + [[]]
      && r.value.quoteBlocks == st.quoteBlocks + (if m == QuoteH then [[]] else [])
    ensures r.Some? && st.mode != [] ==>
      var f := Flush(st, Last(st.mode), cfg);
      && f.Some? && r.value.executed == f.value.executed
      && r.value.curBlock == DropLast(st.curBlock) + [[], []]
      && r.value.quoteBlocks == f.value.quoteBlocks + (if m == QuoteH then [[]] else [])
  {
    var st1 :- if |st.mode| >= 1 then Flush(st, Last(st.mode), cfg) else Some(st);
    Some(st1.(mode := st1.mode + [m],
              curBlock := st1.curBlock + [[]],
              quoteBlocks := if m == QuoteH then st1.quoteBlocks + [[]] else st1.quoteBlocks))
  }

  /** `quote_fn(blocks)`: the re-indented header with its colon, a line break, and the body
      re-indented four columns deeper. */
  function QuoteFn(blocks: seq<string>, indent: nat): (r: Option<string>)
    ensures r.None? <==> blocks == []
  {
    if blocks == [] then None
    else Some(Indent.FixWs(blocks[0] + ":", indent) + "\n" + Indent.FixWs(Concat(blocks[1..]), indent + 4))
  }

  /** When `pop()` does not raise. */
  predicate PopOk(st: State) {
    && |st.mode| > 0 && |st.curBlock| > 0
    && if Last(st.mode) == Quote then
         && |st.quoteBlocks| > 0 && Last(st.quoteBlocks) != []
         && (Quote in DropLast(st.mode) ==> |st.quoteBlocks| > 1)
       else FlushOk(st.(mode := DropLast(st.mode)), Last(st.mode))
  }

  /** `pop()`: closes the top mode. A quote is composed by `quote_fn` from its buffer, which is
      discarded, and the result is run; any other mode is flushed. */
  function Pop(st: State, cfg: Config): (r: Option<State>)
    ensures r.Some? <==> PopOk(st)
    ensures r.Some? ==>
      && r.value.mode == DropLast(st.mode)
      && r.value.curBlock == DropLast(st.curBlock)
      && |r.value.quoteBlocks| == |st.quoteBlocks| - (if Last(st.mode) == Quote then 1 else 0)
      && r.value.indent == st.indent && r.value.lineno == st.lineno
    ensures r.Some? && Last(st.mode) == Quote ==>
      var frag := QuoteFn(Last(st.quoteBlocks), st.indent).value;
      if Quote in DropLast(st.mode) then
        r.value.executed == st.executed && r.value.quoteBlocks == AppendLast(DropLast(st.quoteBlocks), [frag])
      else
        r.value.executed == st.executed + [frag] && r.value.quoteBlocks == DropLast(st.quoteBlocks)
    ensures r.Some? && Last(st.mode) != Quote ==>
      var f := Flush(st.(mode := DropLast(st.mode)), Last(st.mode), cfg);
      f.Some? && r.value.executed == f.value.executed && r.value.quoteBlocks == f.value.quoteBlocks
  {
    if |st.mode| == 0 then None
    else
      var m := Last(st.mode);
      var st0 := st.(mode := DropLast(st.mode));
      var st1 :-
        if m == Quote then
          if |st0.quoteBlocks| == 0 then None
          else
            var s :- QuoteFn(Last(st0.quoteBlocks), st0.indent);
            Run(st0.(quoteBlocks := DropLast(st0.quoteBlocks)), s)
        else Flush(st0, m, cfg);
      if |st1.curBlock| == 0 then None
      else Some(st1.(curBlock := DropLast(st1.curBlock)))
  }

  /** The statement `_emit` queues for a literal token inside a quote body. */
  function EmitStatement(tok: string, repr: string -> string): string {
    "emit(" + repr(tok) + ")\n"
  }

  /** `_emit(state, tok)`: the token joins the top accumulator and, directly inside a quote body,
      a non-empty token is also queued as an `emit` statement. */
  function Emit(st: State, tok: string, cfg: Config): (r: Option<State>)
    ensures r.None? <==> st.curBlock == [] || st.mode == []
                         || (Last(st.mode) == Quote && tok != "" && st.quoteBlocks == [])
    ensures r.Some? ==>
      && r.value.mode == st.mode && r.value.executed == st.executed
      && r.value.indent == st.indent && r.value.lineno == st.lineno
      && r.value.curBlock == AppendLast(st.curBlock, [tok])
      && r.value.quoteBlocks ==
           if Last(st.mode) == Quote && tok != "" then AppendLast(st.quoteBlocks, [EmitStatement(tok, cfg.repr)])
           else st.quoteBlocks
  {
    if st.curBlock == [] || st.mode == [] then None
    else
      var st1 := st.(curBlock := AppendLast(st.curBlock, [tok]));
      if Last(st.mode) == Quote && tok != "" then
        if st.quoteBlocks == [] then None
        else Some(st1.(quoteBlocks := AppendLast(st.quoteBlocks, [EmitStatement(tok, cfg.repr)])))
      else Some(st1)
  }

  /** The delimiters each kind stands for. */
  lemma ClassifyCases(tok: string)
    ensures Classify(tok).Open? ==> tok == PRE_START || tok == EXPR_START || tok == QUOTE_H_START
    ensures Classify(tok).Open? ==> Classify(tok).opens in {Pre, Expr, QuoteH}
    ensures Classify(tok).Close? ==> tok == PRE_END || tok == EXPR_END || tok == QUOTE_END
    ensures Classify(tok).HeaderEnd? ==> tok == QUOTE_H_END
    ensures Classify(tok).ContStart? ==> tok == QUOTE_CONT_START
    ensures Classify(tok).ContEnd? ==> tok == QUOTE_CONT_END
  {
  }

  /** How the dispatch chain of `pre` reads a token, before looking at the mode stack. */
  datatype Kind = Open(opens: Mode) | Close | HeaderEnd | ContStart | ContEnd | Text

  /** The comparisons of prethon.py:241-261, in their order: the three opening delimiters, the
      three closing ones, and the three that act only under a particular top mode. */
  function Classify(tok: string): Kind {
    if tok == PRE_START then Open(Pre)
    else if tok == PRE_END then Close
    else if tok == EXPR_START then Open(Expr)
    else if tok == EXPR_END then Close
    else if tok == QUOTE_H_START then Open(QuoteH)
    else if tok == QUOTE_H_END then HeaderEnd
    else if tok == QUOTE_CONT_START then ContStart
    else if tok == QUOTE_CONT_END then ContEnd
    else if tok == QUOTE_END then Close
    else Text
  }

  /** Whether a guarded token acts under the top mode `top` (prethon.py:251, 254, 257). */
  predicate GuardHolds(k: Kind, top: Mode) {
    match k
    case HeaderEnd => top == QuoteH
    case ContStart => top == Quote
    case ContEnd => top == QuoteCont
    case _ => false
  }

  predicate Guarded(k: Kind) {
    k.HeaderEnd? || k.ContStart? || k.ContEnd?
  }

  /** The line count of prethon.py:239, taken before the token is looked at. */
  function Counted(st: State, tok: string): State {
    st.(lineno := st.lineno + CountNl(tok))
  }

  /** The dispatch chain of prethon.py:241-263 for a token of kind `k`, on the state `st0` whose
      line count already includes the token. */
  function Act(st0: State, k: Kind, tok: string, cfg: Config): Option<State> {
    match k
    case Open(m) => Push(st0, m, cfg)
    case Close => Pop(st0, cfg)
    case Text => Emit(st0, tok, cfg)
    case HeaderEnd =>
      if st0.mode == [] then None
      else if Last(st0.mode) != QuoteH then Emit(st0, tok, cfg)
      else
        var st1 :- Pop(st0, cfg);
        Push(st1, Quote, cfg)
    case ContStart =>
      if st0.mode == [] then None
      else if Last(st0.mode) != Quote then Emit(st0, tok, cfg)
      else Push(st0, QuoteCont, cfg)
    case ContEnd =>
      if st0.mode == [] then None
      else if Last(st0.mode) != QuoteCont then Emit(st0, tok, cfg)
      else Pop(st0, cfg)
  }

  /** One iteration of the token loop of `pre` (prethon.py:238-263): the line count first, then
      the dispatch on the token. */
  function Dispatch(st: State, tok: string, cfg: Config): (r: Option<State>)
    ensures r.Some? ==> r.value.lineno == st.lineno + CountNl(tok)
  {
    Act(Counted(st, tok), Classify(tok), tok, cfg)
  }

  /** The branch of the dispatch chain each kind of token takes. */
  lemma DispatchOpenCase(st: State, tok: string, cfg: Config)
    requires Classify(tok).Open?
    ensures Dispatch(st, tok, cfg) == Push(Counted(st, tok), Classify(tok).opens, cfg)
  {
  }

  lemma DispatchCloseCase(st: State, tok: string, cfg: Config)
    requires Classify(tok).Close?
    ensures Dispatch(st, tok, cfg) == Pop(Counted(st, tok), cfg)
  {
  }

  lemma DispatchTextCase(st: State, tok: string, cfg: Config)
    requires Classify(tok).Text?
    ensures Dispatch(st, tok, cfg) == Emit(Counted(st, tok), tok, cfg)
  {
  }

  lemma DispatchUnguardedCase(st: State, tok: string, cfg: Config)
    requires Guarded(Classify(tok)) && st.mode != [] && !GuardHolds(Classify(tok), Last(st.mode))
    ensures Dispatch(st, tok, cfg) == Emit(Counted(st, tok), tok, cfg)
  {
  }

  lemma DispatchEmptyCase(st: State, tok: string, cfg: Config)
    requires Guarded(Classify(tok)) && st.mode == []
    ensures Dispatch(st, tok, cfg).None?
  {
  }

  lemma DispatchHeaderEndCase(st: State, tok: string, cfg: Config)
    requires Classify(tok).HeaderEnd? && st.mode != [] && Last(st.mode) == QuoteH
    ensures Dispatch(st, tok, cfg) == (var st1 :- Pop(Counted(st, tok), cfg); Push(st1, Quote, cfg))
  {
  }

  lemma DispatchContStartCase(st: State, tok: string, cfg: Config)
    requires Classify(tok).ContStart? && st.mode != [] && Last(st.mode) == Quote
    ensures Dispatch(st, tok, cfg) == Push(Counted(st, tok), QuoteCont, cfg)
  {
  }

  lemma DispatchContEndCase(st: State, tok: string, cfg: Config)
    requires Classify(tok).ContEnd? && st.mode != [] && Last(st.mode) == QuoteCont
    ensures Dispatch(st, tok, cfg) == Pop(Counted(st, tok), cfg)
  {
  }

  /** The token loop over one line's tokens. */
  function RunTokens(st: State, toks: seq<string>, cfg: Config): Option<State>
    decreases |toks|
  {
    if toks == [] then Some(st)
    else
      var st1 :- Dispatch(st, toks[0], cfg);
      RunTokens(st1, toks[1..], cfg)
  }

  /** The line loop of `pre`, each line split by `tokenize`. */
  function RunLines(st: State, lines: seq<string>, cfg: Config): Option<State>
    decreases |lines|
  {
    if lines == [] then Some(st)
    else
      var st1 :- RunTokens(st, Tokenize(lines[0]), cfg);
      RunLines(st1, lines[1..], cfg)
  }

  /** The lines from state `st` on, then the final `pop` of prethon.py:266. */
  function Finish(st: State, lines: seq<string>, cfg: Config): Option<State> {
    var st1 :- RunLines(st, lines, cfg);
    Pop(st1, cfg)
  }

  /** `pre` on a file of `lines` opened in mode `m`. */
  function Process(lines: seq<string>, m: Mode, cfg: Config): Option<State> {
    var st :- Push(Empty, m, cfg);
    Finish(st, lines, cfg)
  }
}
