/** Properties of whole runs of `pre` (prethon.py:220-266): the line counter, the invariant from
    the start mode on, a file opened in quote-body mode, and text without region delimiters. */
module Runs {
  import opened Wrappers
  import opened Text
  import opened Tokenizer
  import opened Machine
  import opened Invariants

  /** The line counter grows by the line breaks of the tokens consumed. */
  lemma {:induction false} RunTokensLineno(st: State, toks: seq<string>, cfg: Config)
    requires RunTokens(st, toks, cfg).Some?
    ensures RunTokens(st, toks, cfg).value.lineno == st.lineno + CountNl(Concat(toks))
    decreases |toks|
  {
    if toks != [] {
      var st1 := Dispatch(st, toks[0], cfg).value;
      RunTokensLineno(st1, toks[1..], cfg);
      CountNlAppend(toks[0], Concat(toks[1..]));
    }
  }

  lemma {:induction false} RunLinesLineno(st: State, lines: seq<string>, cfg: Config)
    requires RunLines(st, lines, cfg).Some?
    ensures RunLines(st, lines, cfg).value.lineno == st.lineno + CountNl(Concat(lines))
    decreases |lines|
  {
    if lines != [] {
      var st1 := RunTokens(st, Tokenize(lines[0]), cfg).value;
      RunTokensLineno(st, Tokenize(lines[0]), cfg);
      RunLinesLineno(st1, lines[1..], cfg);
      CountNlAppend(lines[0], Concat(lines[1..]));
    }
  }

  /** After a run, `lineno` is one more than the number of line breaks in the input. */
  lemma ProcessLineno(lines: seq<string>, m: Mode, cfg: Config)
    requires Process(lines, m, cfg).Some?
    ensures Process(lines, m, cfg).value.lineno == 1 + CountNl(Concat(lines))
  {
    var st := Push(Empty, m, cfg).value;
    RunLinesLineno(st, lines, cfg);
  }

  /** Opening the file in any mode but a quote body or continuation establishes the invariant. */
  lemma StartInv(m: Mode, cfg: Config)
    requires m != Quote && m != QuoteCont
    ensures Push(Empty, m, cfg).Some? && Inv(Push(Empty, m, cfg).value)
  {
    var st := Push(Empty, m, cfg).value;
    CountQSnoc([], m);
    ContSupportedPush([], m);
    assert [] + [m] == st.mode;
  }

  lemma {:induction false} RunTokensInv(st: State, toks: seq<string>, cfg: Config)
    requires Inv(st) && RunTokens(st, toks, cfg).Some?
    ensures Inv(RunTokens(st, toks, cfg).value)
    decreases |toks|
  {
    if toks != [] {
      DispatchInv(st, toks[0], cfg);
      RunTokensInv(Dispatch(st, toks[0], cfg).value, toks[1..], cfg);
    }
  }

  lemma {:induction false} RunLinesInv(st: State, lines: seq<string>, cfg: Config)
    requires Inv(st) && RunLines(st, lines, cfg).Some?
    ensures Inv(RunLines(st, lines, cfg).value)
    decreases |lines|
  {
    if lines != [] {
      RunTokensInv(st, Tokenize(lines[0]), cfg);
      RunLinesInv(RunTokens(st, Tokenize(lines[0]), cfg).value, lines[1..], cfg);
    }
  }

  /** The invariant holds through a whole run, and the stacks stay parallel. */
  lemma ProcessInv(lines: seq<string>, m: Mode, cfg: Config)
    requires m != Quote && m != QuoteCont && Process(lines, m, cfg).Some?
    ensures Inv(Process(lines, m, cfg).value)
  {
    StartInv(m, cfg);
    var st := Push(Empty, m, cfg).value;
    RunLinesInv(st, lines, cfg);
    PopInv(RunLines(st, lines, cfg).value, cfg);
  }

  /** A file opened directly in quote-body mode has a quote open but no quote buffer. */
  predicate Stuck(st: State) {
    st.mode == [Quote] && st.quoteBlocks == [] && |st.curBlock| == 1
  }

  /** In that state only an empty literal goes through; every other token raises. */
  lemma DispatchStuck(st: State, tok: string, cfg: Config)
    requires Stuck(st)
    ensures Dispatch(st, tok, cfg).Some? ==> tok == "" && Stuck(Dispatch(st, tok, cfg).value)
  {
    assert Quote in st.mode && Last(st.mode) == Quote;
    var st0 := Counted(st, tok);
    assert Quote in st0.mode;
  }

  lemma {:induction false} RunTokensStuck(st: State, toks: seq<string>, cfg: Config)
    requires Stuck(st)
    ensures RunTokens(st, toks, cfg).Some? ==> Stuck(RunTokens(st, toks, cfg).value)
    decreases |toks|
  {
    if toks != [] {
      DispatchStuck(st, toks[0], cfg);
      if Dispatch(st, toks[0], cfg).Some? {
        RunTokensStuck(Dispatch(st, toks[0], cfg).value, toks[1..], cfg);
      }
    }
  }

  lemma {:induction false} RunLinesStuck(st: State, lines: seq<string>, cfg: Config)
    requires Stuck(st)
    ensures RunLines(st, lines, cfg).Some? ==> Stuck(RunLines(st, lines, cfg).value)
    decreases |lines|
  {
    if lines != [] {
      RunTokensStuck(st, Tokenize(lines[0]), cfg);
      if RunTokens(st, Tokenize(lines[0]), cfg).Some? {
        RunLinesStuck(RunTokens(st, Tokenize(lines[0]), cfg).value, lines[1..], cfg);
      }
    }
  }

  /** `pre` in quote-body mode always raises: the final pop at the latest finds no buffer. */
  lemma QuoteStartFails(lines: seq<string>, cfg: Config)
    ensures Process(lines, Quote, cfg).None?
  {
    var st := Push(Empty, Quote, cfg).value;
    assert st.mode == [Quote];
    RunLinesStuck(st, lines, cfg);
  }

  /** A line holding none of the six region delimiters (`:`, `##` and line breaks may occur). */
  predicate NoRegions(s: string) {
    && !Contains(s, PRE_START) && !Contains(s, PRE_END)
    && !Contains(s, EXPR_START) && !Contains(s, EXPR_END)
    && !Contains(s, QUOTE_H_START) && !Contains(s, QUOTE_END)
  }

  /** A token found in such a line is read as literal text or as a guarded delimiter. */
  lemma PlainToken(line: string, tok: string, p: nat)
    requires NoRegions(line) && OccursAt(line, tok, p)
    ensures !Classify(tok).Open? && !Classify(tok).Close?
  {
    ClassifyCases(tok);
    assert p <= |line|;
  }

  /** Every token of such a line is read as literal text or as a guarded delimiter. */
  lemma PlainTokens(line: string)
    requires NoRegions(line)
    ensures forall i :: 0 <= i < |Tokenize(line)| ==>
      !Classify(Tokenize(line)[i]).Open? && !Classify(Tokenize(line)[i]).Close?
  {
    var toks := Tokenize(line);
    forall i | 0 <= i < |toks| ensures !Classify(toks[i]).Open? && !Classify(toks[i]).Close? {
      ConcatFactor(toks, i);
      PlainToken(line, toks[i], |Concat(toks[..i])|);
    }
  }

  /** Text in normal mode at the top level only collects in the one accumulator. */
  predicate Plain(st: State) {
    st.mode == [Normal] && |st.curBlock| == 1
  }

  lemma PlainStep(st: State, tok: string, cfg: Config)
    requires Plain(st) && !Classify(tok).Open? && !Classify(tok).Close?
    ensures Dispatch(st, tok, cfg) == Some(PlainRun(st, [tok]))
  {
    var st0 := Counted(st, tok);
    assert Last(st.mode) == Normal;
    PlainDispatch(st, tok, cfg);
    PlainEmit(st0, tok, cfg);
    assert st0.(curBlock := [st0.curBlock[0] + [tok]])
        == st.(lineno := st.lineno + CountNl(tok), curBlock := [st.curBlock[0] + [tok]]);
    PlainRunOne(st, tok);
  }

  lemma PlainRunOne(st: State, tok: string)
    requires Plain(st)
    ensures PlainRun(st, [tok]) == st.(lineno := st.lineno + CountNl(tok), curBlock := [st.curBlock[0] + [tok]])
  {
    assert Concat([tok]) == tok + Concat([]);
  }

  /** Under a normal top, every token that neither opens nor closes is literal text. */
  lemma PlainDispatch(st: State, tok: string, cfg: Config)
    requires st.mode != [] && Last(st.mode) == Normal
    requires !Classify(tok).Open? && !Classify(tok).Close?
    ensures Dispatch(st, tok, cfg) == Emit(Counted(st, tok), tok, cfg)
  {
    if Classify(tok).Text? {
      DispatchTextCase(st, tok, cfg);
    } else {
      DispatchUnguardedCase(st, tok, cfg);
    }
  }

  lemma PlainEmit(st: State, tok: string, cfg: Config)
    requires Plain(st)
    ensures Emit(st, tok, cfg) == Some(st.(curBlock := [st.curBlock[0] + [tok]]))
  {
    var cb := st.curBlock;
    assert Last(st.mode) == Normal;
    assert DropLast(cb) == [] && Last(cb) == cb[0];
    assert AppendLast(cb, [tok]) == [cb[0] + [tok]];
    assert Emit(st, tok, cfg) == Some(st.(curBlock := AppendLast(cb, [tok])));
  }

  /** The first token of a plain run only joins the accumulator. */
  lemma PlainRunStep(st: State, toks: seq<string>, cfg: Config)
    requires Plain(st) && toks != [] && !Classify(toks[0]).Open? && !Classify(toks[0]).Close?
    ensures RunTokens(st, toks, cfg) == RunTokens(PlainRun(st, toks[..1]), toks[1..], cfg)
  {
    PlainStep(st, toks[0], cfg);
    assert toks[..1] == [toks[0]];
    RunTokensCons(st, toks, cfg, PlainRun(st, toks[..1]));
  }

  lemma RunTokensCons(st: State, toks: seq<string>, cfg: Config, st1: State)
    requires toks != [] && Dispatch(st, toks[0], cfg) == Some(st1)
    ensures RunTokens(st, toks, cfg) == RunTokens(st1, toks[1..], cfg)
  {
  }

  lemma {:induction false} RunTokensPlain(st: State, toks: seq<string>, cfg: Config)
    requires Plain(st)
    requires forall i :: 0 <= i < |toks| ==> !Classify(toks[i]).Open? && !Classify(toks[i]).Close?
    ensures RunTokens(st, toks, cfg) == Some(PlainRun(st, toks))
    decreases |toks|
  {
    if toks == [] {
      assert st.curBlock[0] + toks == st.curBlock[0];
      assert st.curBlock == [st.curBlock[0]];
    } else {
      PlainRunStep(st, toks, cfg);
      RunTokensPlain(PlainRun(st, toks[..1]), toks[1..], cfg);
      PlainRunSplit(st, toks);
    }
  }

  /** The state a plain run of `toks` reaches from `st`. */
  function PlainRun(st: State, toks: seq<string>): State
    requires Plain(st)
  {
    st.(lineno := st.lineno + CountNl(Concat(toks)), curBlock := [st.curBlock[0] + toks])
  }

  lemma PlainRunSplit(st: State, toks: seq<string>)
    requires Plain(st) && toks != []
    ensures Plain(PlainRun(st, toks[..1]))
    ensures PlainRun(PlainRun(st, toks[..1]), toks[1..]) == PlainRun(st, toks)
  {
    var st1 := PlainRun(st, toks[..1]);
    assert Concat(toks[..1]) == toks[0];
    CountNlAppend(toks[0], Concat(toks[1..]));
    assert Concat(toks) == toks[0] + Concat(toks[1..]);
    assert st.curBlock[0] + toks[..1] + toks[1..] == st.curBlock[0] + toks by {
      assert toks[..1] + toks[1..] == toks;
    }
  }

  /** What a run of plain lines from a plain state leaves: the same plain state with all the text
      in its accumulator and the line counter advanced. */
  predicate PlainAfter(st: State, text: string, r: State)
    requires Plain(st)
  {
    && Plain(r)
    && r.quoteBlocks == st.quoteBlocks && r.executed == st.executed && r.indent == st.indent
    && r.lineno == st.lineno + CountNl(text)
    && Concat(r.curBlock[0]) == Concat(st.curBlock[0]) + text
  }

  lemma PlainLine(st: State, line: string, cfg: Config)
    requires Plain(st) && NoRegions(line)
    ensures RunTokens(st, Tokenize(line), cfg).Some?
    ensures PlainAfter(st, line, RunTokens(st, Tokenize(line), cfg).value)
  {
    var toks := Tokenize(line);
    PlainTokens(line);
    RunTokensPlain(st, toks, cfg);
    ConcatAppend(st.curBlock[0], toks);
  }

  lemma RunLinesCons(st: State, lines: seq<string>, cfg: Config, st1: State)
    requires lines != [] && RunTokens(st, Tokenize(lines[0]), cfg) == Some(st1)
    ensures RunLines(st, lines, cfg) == RunLines(st1, lines[1..], cfg)
  {
  }

  lemma PlainAfterTrans(st: State, a: string, st1: State, b: string, r: State)
    requires Plain(st) && PlainAfter(st, a, st1) && PlainAfter(st1, b, r)
    ensures PlainAfter(st, a + b, r)
  {
    CountNlAppend(a, b);
    assert Concat(st.curBlock[0]) + a + b == Concat(st.curBlock[0]) + (a + b);
  }

  lemma {:induction false} RunLinesPlain(st: State, lines: seq<string>, cfg: Config)
    requires Plain(st)
    requires forall i :: 0 <= i < |lines| ==> NoRegions(lines[i])
    ensures RunLines(st, lines, cfg).Some?
    ensures PlainAfter(st, Concat(lines), RunLines(st, lines, cfg).value)
    decreases |lines|
  {
    if lines == [] {
      assert Concat(st.curBlock[0]) + "" == Concat(st.curBlock[0]);
    } else {
      PlainLine(st, lines[0], cfg);
      var st1 := RunTokens(st, Tokenize(lines[0]), cfg).value;
      RunLinesCons(st, lines, cfg, st1);
      RunLinesPlain(st1, lines[1..], cfg);
      PlainAfterTrans(st, lines[0], st1, Concat(lines[1..]), RunLines(st1, lines[1..], cfg).value);
      assert Concat(lines) == lines[0] + Concat(lines[1..]);
    }
  }

  /** The closing pop of a plain top-level state flushes the whole accumulator as normal text. */
  lemma PlainClose(st: State, cfg: Config)
    requires Plain(st) && st.quoteBlocks == [] && st.executed == [] && st.indent == 0
    ensures var r := Pop(st, cfg);
      && r.Some? && r.value.mode == [] && r.value.quoteBlocks == []
      && r.value.executed == Flushed(Normal, Concat(st.curBlock[0]), 0, st.lineno, cfg)
  {
    var st0 := st.(mode := []);
    assert Last(st.mode) == Normal && DropLast(st.mode) == [];
    assert Last(st0.curBlock) == st.curBlock[0];
    assert Raw(Normal, Concat(st.curBlock[0])) == [];
    assert FlushOk(st0, Normal);
    assert PopOk(st);
  }

  /** What the flush of normal text at indentation zero runs. */
  lemma FlushedNormal(text: string, lineno: nat, cfg: Config)
    requires ReprOk(cfg.repr)
    ensures Flushed(Normal, text, 0, lineno, cfg) ==
      [if text == "" then "\n" else "emit(" + cfg.repr(text) + ")\n\n"]
      + (if cfg.lineNos then [LineMarker(lineno)] else [])
  {
    NormalStatement(text, cfg.repr);
    var e := if text == "" then "\n" else "emit(" + cfg.repr(text) + ")\n\n";
    assert Flushed(Normal, text, 0, lineno, cfg) == [e] + (if cfg.lineNos then [LineMarker(lineno)] else []);
  }

  /** The statement flushed for normal text at indentation zero. */
  lemma NormalStatement(text: string, repr: string -> string)
    requires ReprOk(repr)
    ensures Indent.FixWs(Statement(Normal, text, repr), 0) ==
      if text == "" then "\n" else "emit(" + repr(text) + ")\n\n"
  {
    if text == "" {
      assert Statement(Normal, text, repr) == "";
      Indent.FixWsEmpty(0);
      assert Spaces(0) == "";
    } else {
      var x := repr(text);
      assert '\n' !in x;
      assert Statement(Normal, text, repr) == "emit(" + x + ")\n";
      Indent.FixWsEmitLine(x, 0);
      ZeroIndentGlue(Spaces(0), x);
    }
  }

  lemma ZeroIndentGlue(z: string, x: string)
    requires z == ""
    ensures z + "emit(" + x + ")\n" + z + "\n" == "emit(" + x + ")\n\n"
  {
    assert ")\n" + "\n" == ")\n\n";
    assert "emit(" + x + ")\n" + "\n" == "emit(" + x + (")\n" + "\n");
  }

  lemma PlainStart(cfg: Config)
    ensures Push(Empty, Normal, cfg) == Some(State([Normal], [[]], [], 0, 1, []))
  {
    var e: seq<Mode> := [];
    var b: seq<seq<string>> := [];
    assert e + [Normal] == [Normal] && b + [[]] == [[]];
  }

  lemma ProcessUnfold(lines: seq<string>, cfg: Config, st: State)
    requires Push(Empty, Normal, cfg) == Some(st) && RunLines(st, lines, cfg).Some?
    ensures Process(lines, Normal, cfg) == Pop(RunLines(st, lines, cfg).value, cfg)
  {
  }

  /** The end of a plain file: the closing pop of the state the lines left. */
  lemma PlainEnd(lines: seq<string>, cfg: Config, st2: State)
    requires ReprOk(cfg.repr)
    requires Process(lines, Normal, cfg) == Pop(st2, cfg)
    requires Plain(st2) && st2.quoteBlocks == [] && st2.executed == [] && st2.indent == 0
    requires Concat(st2.curBlock[0]) == Concat(lines) && st2.lineno == 1 + CountNl(Concat(lines))
    ensures var text := Concat(lines);
      var r := Process(lines, Normal, cfg);
      && r.Some? && r.value.mode == [] && r.value.quoteBlocks == []
      && r.value.executed ==
           [if text == "" then "\n" else "emit(" + cfg.repr(text) + ")\n\n"]
           + (if cfg.lineNos then [LineMarker(1 + CountNl(text))] else [])
  {
    PlainClose(st2, cfg);
    FlushedNormal(Concat(lines), st2.lineno, cfg);
  }

  /** A file in normal mode without region delimiters is executed as a single `emit` of its
      whole text (an empty line for an empty file), followed by the line marker for the line
      after the last one when line numbers are enabled. */
  lemma PlainTextPassesThrough(lines: seq<string>, cfg: Config)
    requires ReprOk(cfg.repr)
    requires forall i :: 0 <= i < |lines| ==> NoRegions(lines[i])
    ensures var text := Concat(lines);
      var r := Process(lines, Normal, cfg);
      && r.Some? && r.value.mode == [] && r.value.quoteBlocks == []
      && r.value.executed ==
           [if text == "" then "\n" else "emit(" + cfg.repr(text) + ")\n\n"]
           + (if cfg.lineNos then [LineMarker(1 + CountNl(text))] else [])
  {
    var st := State([Normal], [[]], [], 0, 1, []);
    PlainStart(cfg);
    RunLinesPlain(st, lines, cfg);
    var st2 := RunLines(st, lines, cfg).value;
    assert Concat(st.curBlock[0]) == "";
    ProcessUnfold(lines, cfg, st);
    PlainEnd(lines, cfg, st2);
  }
}
