/** The driver `pre` (prethon.py:220-266): a parser object in the start mode, the nested loops over
    the lines and their tokens, and the final pop. An operation that would raise ends the run with
    `ok == false`. */
module Driver {
  import opened Wrappers
  import opened Text
  import opened Tokenizer
  import opened Machine
  import opened Parser

  /** One iteration of the token loop (prethon.py:238-263) on the object: the line count, then
      the dispatch chain. It succeeds exactly when the reference dispatch does, and then leaves
      the state that dispatch computes. */
  method Step(state: ParserState, tok: string) returns (ok: bool)
    modifies state
    ensures ok <==> Machine.Dispatch(old(state.Snapshot()), tok, state.cfg).Some?
    ensures ok ==> Machine.Dispatch(old(state.Snapshot()), tok, state.cfg) == Some(state.Snapshot())
  {
    ghost var st := state.Snapshot();
    state.lineno := state.lineno + CountNl(tok);
    assert state.Snapshot() == Counted(st, tok);
    if tok == PRE_START {
      DispatchOpenCase(st, tok, state.cfg);
      ok := TryPush(state, Mode.Pre);
    } else if tok == PRE_END {
      DispatchCloseCase(st, tok, state.cfg);
      ok := TryPop(state);
    } else if tok == EXPR_START {
      DispatchOpenCase(st, tok, state.cfg);
      ok := TryPush(state, Expr);
    } else if tok == EXPR_END {
      DispatchCloseCase(st, tok, state.cfg);
      ok := TryPop(state);
    } else if tok == QUOTE_H_START {
      DispatchOpenCase(st, tok, state.cfg);
      ok := TryPush(state, QuoteH);
    } else if tok == QUOTE_H_END && (state.mode == [] || Last(state.mode) == QuoteH) {
      if state.mode == [] {
        DispatchEmptyCase(st, tok, state.cfg);
        ok := false;
      } else {
        DispatchHeaderEndCase(st, tok, state.cfg);
        ok := TryPop(state);
        if ok {
          ok := TryPush(state, Quote);
        }
      }
    } else if tok == QUOTE_CONT_START && (state.mode == [] || Last(state.mode) == Quote) {
      if state.mode == [] {
        DispatchEmptyCase(st, tok, state.cfg);
        ok := false;
      } else {
        DispatchContStartCase(st, tok, state.cfg);
        ok := TryPush(state, QuoteCont);
      }
    } else if tok == QUOTE_CONT_END && (state.mode == [] || Last(state.mode) == QuoteCont) {
      if state.mode == [] {
        DispatchEmptyCase(st, tok, state.cfg);
        ok := false;
      } else {
        DispatchContEndCase(st, tok, state.cfg);
        ok := TryPop(state);
      }
    } else if tok == QUOTE_END {
      DispatchCloseCase(st, tok, state.cfg);
      ok := TryPop(state);
    } else {
      DispatchLiteral(st, tok, state.cfg);
      ok := TryEmit(state, tok);
    }
  }

  /** A token the chain reads as literal text: it joins the top accumulator. */
  lemma DispatchLiteral(st: State, tok: string, cfg: Config)
    requires tok != PRE_START && tok != PRE_END && tok != EXPR_START && tok != EXPR_END
    requires tok != QUOTE_H_START && tok != QUOTE_END
    requires tok == QUOTE_H_END ==> st.mode != [] && Last(st.mode) != QuoteH
    requires tok == QUOTE_CONT_START ==> st.mode != [] && Last(st.mode) != Quote
    requires tok == QUOTE_CONT_END ==> st.mode != [] && Last(st.mode) != QuoteCont
    ensures Dispatch(st, tok, cfg) == Machine.Emit(Counted(st, tok), tok, cfg)
  {
    ClassifyCases(tok);
    if Classify(tok).Text? {
      DispatchTextCase(st, tok, cfg);
    } else {
      DispatchUnguardedCase(st, tok, cfg);
    }
  }

  /** `state.push(m)`, ending the run where it would raise. */
  method TryPush(state: ParserState, m: Mode) returns (ok: bool)
    modifies state
    ensures ok <==> Machine.Push(old(state.Snapshot()), m, state.cfg).Some?
    ensures ok ==> Machine.Push(old(state.Snapshot()), m, state.cfg) == Some(state.Snapshot())
  {
    ok := state.mode == [] || FlushOk(state.Snapshot(), Last(state.mode));
    if ok {
      state.Push(m);
    }
  }

  /** `state.pop()`, ending the run where it would raise. */
  method TryPop(state: ParserState) returns (ok: bool)
    modifies state
    ensures ok <==> Machine.Pop(old(state.Snapshot()), state.cfg).Some?
    ensures ok ==> Machine.Pop(old(state.Snapshot()), state.cfg) == Some(state.Snapshot())
  {
    ok := PopOk(state.Snapshot());
    if ok {
      state.Pop();
    }
  }

  /** `_emit(state, tok)`, ending the run where it would raise. */
  method TryEmit(state: ParserState, tok: string) returns (ok: bool)
    modifies state
    ensures ok <==> Machine.Emit(old(state.Snapshot()), tok, state.cfg).Some?
    ensures ok ==> Machine.Emit(old(state.Snapshot()), tok, state.cfg) == Some(state.Snapshot())
  {
    ok := state.curBlock != [] && state.mode != []
          && (Last(state.mode) == Quote && tok != "" ==> state.quoteBlocks != []);
    if ok {
      Parser.Emit(state, tok);
    }
  }

  /** What is left of a run once the tokens `toks` of the current line are still to come, then
      the lines `rest`, then the final pop. */
  function Remaining(st: State, toks: seq<string>, rest: seq<string>, cfg: Config): Option<State> {
    var st1 :- RunTokens(st, toks, cfg);
    Finish(st1, rest, cfg)
  }

  lemma RemainingLine(st: State, lines: seq<string>, i: nat, cfg: Config)
    requires i < |lines|
    ensures Finish(st, lines[i..], cfg) == Remaining(st, Tokenize(lines[i]), lines[i + 1..], cfg)
  {
    assert lines[i..][1..] == lines[i + 1..];
  }

  lemma RemainingToken(st: State, toks: seq<string>, j: nat, rest: seq<string>, cfg: Config)
    requires j < |toks|
    ensures Dispatch(st, toks[j], cfg).None? ==> Remaining(st, toks[j..], rest, cfg).None?
    ensures Dispatch(st, toks[j], cfg).Some? ==>
      Remaining(st, toks[j..], rest, cfg) == Remaining(Dispatch(st, toks[j], cfg).value, toks[j + 1..], rest, cfg)
  {
    assert toks[j..][1..] == toks[j + 1..];
  }

  /** `pre(out, globals, file, mode)` on a file given as its lines: it finishes exactly when the
      reference run `Machine.Process` does, and the object then holds the state that run ends in. */
  method Pre(lines: seq<string>, startMode: Mode, cfg: Config) returns (ok: bool, state: ParserState)
    ensures ok <==> Process(lines, startMode, cfg).Some?
    ensures ok ==> Process(lines, startMode, cfg) == Some(state.Snapshot())
  {
    state := new ParserState(startMode, cfg);
    var i := 0;
    while i < |lines|
      invariant 0 <= i <= |lines|
      invariant state.cfg == cfg
      invariant Process(lines, startMode, cfg) == Finish(state.Snapshot(), lines[i..], cfg)
    {
      var toks := Tokenize(lines[i]);
      RemainingLine(state.Snapshot(), lines, i, cfg);
      var j := 0;
      while j < |toks|
        invariant 0 <= j <= |toks|
        invariant state.cfg == cfg
        invariant Process(lines, startMode, cfg) == Remaining(state.Snapshot(), toks[j..], lines[i + 1..], cfg)
      {
        RemainingToken(state.Snapshot(), toks, j, lines[i + 1..], cfg);
        ok := Step(state, toks[j]);
        if !ok {
          return;
        }
        j := j + 1;
      }
      assert toks[j..] == [];
      i := i + 1;
    }
    assert lines[i..] == [];
    ok := TryPop(state);
  }
}
