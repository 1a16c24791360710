/** The stack discipline of the parser: the invariant one dispatch step preserves, exactly when
    a step raises, what each token does to the mode stack, and the deferral of statements while a
    quote is open. */
module Invariants {
  import opened Wrappers
  import opened Text
  import opened Machine

  /** The number of open quote headers and quote bodies; each owns one quote buffer. */
  function CountQ(mode: seq<Mode>): nat {
    if mode == [] then 0
    else CountQ(DropLast(mode)) + (if Last(mode) == QuoteH || Last(mode) == Quote then 1 else 0)
  }

  /** Every open continuation sits above an open quote header or body. */
  predicate ContSupported(mode: seq<Mode>) {
    forall i :: 0 <= i < |mode| && mode[i] == QuoteCont ==> CountQ(mode[..i]) > 0
  }

  /** One accumulator per open mode, a quote buffer for each open quote header and body, and no
      continuation outside a quote. */
  predicate Inv(st: State) {
    && Valid(st)
    && CountQ(st.mode) <= |st.quoteBlocks|
    && ContSupported(st.mode)
  }

  lemma CountQSnoc(mode: seq<Mode>, m: Mode)
    ensures CountQ(mode + [m]) == CountQ(mode) + (if m == QuoteH || m == Quote then 1 else 0)
  {
    assert DropLast(mode + [m]) == mode;
  }

  lemma CountQDrop(mode: seq<Mode>)
    requires |mode| > 0
    ensures CountQ(mode) == CountQ(DropLast(mode)) + (if Last(mode) == QuoteH || Last(mode) == Quote then 1 else 0)
  {
  }

  /** The count is positive exactly when a quote header or body is open. */
  lemma {:induction false} CountQIn(mode: seq<Mode>)
    ensures CountQ(mode) > 0 <==> QuoteH in mode || Quote in mode
    decreases |mode|
  {
    if mode != [] {
      CountQIn(DropLast(mode));
      assert mode == DropLast(mode) + [Last(mode)];
    }
  }

  lemma {:induction false} CountQPrefix(mode: seq<Mode>, i: nat)
    requires i <= |mode|
    ensures CountQ(mode[..i]) <= CountQ(mode)
    decreases |mode|
  {
    if i < |mode| {
      assert DropLast(mode)[..i] == mode[..i];
      CountQPrefix(DropLast(mode), i);
    } else {
      assert mode[..i] == mode;
    }
  }

  lemma ContSupportedPush(mode: seq<Mode>, m: Mode)
    requires ContSupported(mode)
    requires m == QuoteCont ==> CountQ(mode) > 0
    ensures ContSupported(mode + [m])
  {
    var t := mode + [m];
    forall i | 0 <= i < |t| && t[i] == QuoteCont ensures CountQ(t[..i]) > 0 {
      if i < |mode| {
        assert t[..i] == mode[..i];
      } else {
        assert t[..i] == mode;
      }
    }
  }

  lemma ContSupportedPop(mode: seq<Mode>)
    requires |mode| > 0 && ContSupported(mode)
    ensures ContSupported(DropLast(mode))
  {
    var t := DropLast(mode);
    forall i | 0 <= i < |t| && t[i] == QuoteCont ensures CountQ(t[..i]) > 0 {
      assert t[..i] == mode[..i] && mode[i] == QuoteCont;
    }
  }

  /** Under the invariant there is a quote buffer whenever a quote header, body or continuation
      is open. */
  lemma BufferExists(st: State)
    requires Inv(st)
    ensures QuoteH in st.mode || Quote in st.mode || QuoteCont in st.mode ==> |st.quoteBlocks| > 0
  {
    CountQIn(st.mode);
    if QuoteCont in st.mode && QuoteH !in st.mode && Quote !in st.mode {
      var i :| 0 <= i < |st.mode| && st.mode[i] == QuoteCont;
      CountQPrefix(st.mode, i);
    }
  }

  /** Under the invariant, flushing any open mode succeeds, and so does pushing. */
  lemma FlushOkTop(st: State, m: Mode)
    requires Inv(st) && |st.mode| > 0 && (m == Last(st.mode) || m in DropLast(st.mode) || m !in {QuoteH, QuoteCont})
    ensures FlushOk(st, m)
  {
    BufferExists(st);
    assert Last(st.mode) in st.mode;
    if m in DropLast(st.mode) {
      var i :| 0 <= i < |DropLast(st.mode)| && DropLast(st.mode)[i] == m;
      assert st.mode[i] == m;
    }
  }

  /** The state after a pop of a mode other than a quote body still has the invariant's
      buffer guarantees for the flush that closes it. */
  lemma FlushOkClosing(st: State)
    requires Inv(st) && |st.mode| > 0 && Last(st.mode) != Quote
    ensures FlushOk(st.(mode := DropLast(st.mode)), Last(st.mode))
  {
    var rest := DropLast(st.mode);
    var m := Last(st.mode);
    CountQDrop(st.mode);
    CountQIn(rest);
    if m == QuoteCont {
      assert st.mode[|st.mode| - 1] == QuoteCont && st.mode[..|st.mode| - 1] == rest;
    }
  }

  lemma PushInv(st: State, m: Mode, cfg: Config)
    requires Valid(st) && ContSupported(st.mode)
    requires CountQ(st.mode + [m]) <= |st.quoteBlocks| + (if m == QuoteH then 1 else 0)
    requires m == QuoteCont ==> CountQ(st.mode) > 0
    requires Push(st, m, cfg).Some?
    ensures Inv(Push(st, m, cfg).value)
  {
    ContSupportedPush(st.mode, m);
  }

  lemma PopInv(st: State, cfg: Config)
    requires Inv(st) && Pop(st, cfg).Some?
    ensures Inv(Pop(st, cfg).value)
  {
    CountQDrop(st.mode);
    ContSupportedPop(st.mode);
  }

  /** Under the invariant a pop raises only on an empty mode stack or when it closes a quote
      body whose buffer is empty (`blocks[0]` in `quote_fn`). */
  lemma PopOkInv(st: State)
    requires Inv(st)
    ensures PopOk(st) <==> |st.mode| > 0 && !(Last(st.mode) == Quote && Last(st.quoteBlocks) == [])
  {
    if |st.mode| > 0 {
      CountQDrop(st.mode);
      if Last(st.mode) == Quote {
        CountQIn(DropLast(st.mode));
      } else {
        FlushOkClosing(st);
      }
    }
  }

  /** The tokens that are not literal text under the given mode stack. */
  predicate Acts(mode: seq<Mode>, k: Kind) {
    k.Open? || k.Close? || (mode != [] && GuardHolds(k, Last(mode)))
  }

  /** What a dispatch step does to the mode stack: the three opening tokens push, the three
      closing tokens pop whatever is on top, `:` turns a quote header into a quote body, `##`
      opens a continuation inside a quote body, a line break closes a continuation, and every
      other token is literal text that only joins the top accumulator. */
  lemma DispatchModes(st: State, tok: string, cfg: Config)
    requires Dispatch(st, tok, cfg).Some?
    ensures !Classify(tok).Open? ==> st.mode != []
    ensures var r := Dispatch(st, tok, cfg).value;
      var k := Classify(tok);
      && (k.Open? ==> r.mode == st.mode + [k.opens])
      && (k.Close? ==> r.mode == DropLast(st.mode))
      && (Acts(st.mode, k) && k == HeaderEnd ==> r.mode == DropLast(st.mode) + [Quote])
      && (Acts(st.mode, k) && k == ContStart ==> r.mode == st.mode + [QuoteCont])
      && (Acts(st.mode, k) && k == ContEnd ==> r.mode == DropLast(st.mode))
      && (!Acts(st.mode, k) ==>
            && r.mode == st.mode && r.executed == st.executed
            && |r.curBlock| == |st.curBlock| && Last(r.curBlock) == Last(st.curBlock) + [tok])
      && (Valid(st) ==> Valid(r))
  {
    var st0 := Counted(st, tok);
    var k := Classify(tok);
    if Acts(st.mode, k) && k == HeaderEnd {
      var st1 := Pop(st0, cfg).value;
      assert DropLast(st1.mode + [Quote]) == st1.mode;
    }
  }

  /** One dispatch step preserves the invariant. */
  lemma DispatchInv(st: State, tok: string, cfg: Config)
    requires Inv(st) && Dispatch(st, tok, cfg).Some?
    ensures Inv(Dispatch(st, tok, cfg).value)
  {
    var st0 := Counted(st, tok);
    assert Inv(st0);
    match Classify(tok)
    case Open(m) => DispatchInvOpen(st, tok, cfg);
    case Close => DispatchInvClose(st, tok, cfg);
    case Text => DispatchInvText(st, tok, cfg);
    case HeaderEnd => DispatchInvHeaderEnd(st, tok, cfg);
    case ContStart => DispatchInvContStart(st, tok, cfg);
    case ContEnd => DispatchInvContEnd(st, tok, cfg);
  }

  lemma DispatchInvOpen(st: State, tok: string, cfg: Config)
    requires Inv(st) && Dispatch(st, tok, cfg).Some? && Classify(tok).Open?
    ensures Inv(Dispatch(st, tok, cfg).value)
  {
    var st0 := Counted(st, tok);
    assert Inv(st0);
    DispatchOpenCase(st, tok, cfg);
    ClassifyCases(tok);
    OpenInv(st0, Classify(tok).opens, cfg);
  }

  lemma DispatchInvClose(st: State, tok: string, cfg: Config)
    requires Inv(st) && Dispatch(st, tok, cfg).Some? && Classify(tok).Close?
    ensures Inv(Dispatch(st, tok, cfg).value)
  {
    var st0 := Counted(st, tok);
    assert Inv(st0);
    DispatchCloseCase(st, tok, cfg);
    PopInv(st0, cfg);
  }

  lemma DispatchInvText(st: State, tok: string, cfg: Config)
    requires Inv(st) && Dispatch(st, tok, cfg).Some? && Classify(tok).Text?
    ensures Inv(Dispatch(st, tok, cfg).value)
  {
    var st0 := Counted(st, tok);
    assert Inv(st0);
    EmitInv(st0, tok, cfg);
  }

  lemma DispatchInvHeaderEnd(st: State, tok: string, cfg: Config)
    requires Inv(st) && Dispatch(st, tok, cfg).Some? && Classify(tok).HeaderEnd?
    ensures Inv(Dispatch(st, tok, cfg).value)
  {
    var st0 := Counted(st, tok);
    assert Inv(st0);
    if Last(st.mode) == QuoteH {
      HeaderEndInv(st0, cfg);
    } else {
      EmitInv(st0, tok, cfg);
    }
  }

  lemma DispatchInvContStart(st: State, tok: string, cfg: Config)
    requires Inv(st) && Dispatch(st, tok, cfg).Some? && Classify(tok).ContStart?
    ensures Inv(Dispatch(st, tok, cfg).value)
  {
    var st0 := Counted(st, tok);
    assert Inv(st0);
    if Last(st.mode) == Quote {
      ContStartInv(st0, cfg);
    } else {
      EmitInv(st0, tok, cfg);
    }
  }

  lemma DispatchInvContEnd(st: State, tok: string, cfg: Config)
    requires Inv(st) && Dispatch(st, tok, cfg).Some? && Classify(tok).ContEnd?
    ensures Inv(Dispatch(st, tok, cfg).value)
  {
    var st0 := Counted(st, tok);
    assert Inv(st0);
    if Last(st.mode) == QuoteCont {
      PopInv(st0, cfg);
    } else {
      EmitInv(st0, tok, cfg);
    }
  }

  lemma OpenInv(st: State, m: Mode, cfg: Config)
    requires Inv(st) && (m == Pre || m == Expr || m == QuoteH) && Push(st, m, cfg).Some?
    ensures Inv(Push(st, m, cfg).value)
  {
    CountQSnoc(st.mode, m);
    PushInv(st, m, cfg);
  }

  lemma ContStartInv(st: State, cfg: Config)
    requires Inv(st) && |st.mode| > 0 && Last(st.mode) == Quote && Push(st, QuoteCont, cfg).Some?
    ensures Inv(Push(st, QuoteCont, cfg).value)
  {
    assert Last(st.mode) in st.mode;
    CountQSnoc(st.mode, QuoteCont);
    PushInv(st, QuoteCont, cfg);
  }

  lemma EmitInv(st: State, tok: string, cfg: Config)
    requires Inv(st) && Emit(st, tok, cfg).Some?
    ensures Inv(Emit(st, tok, cfg).value)
  {
  }

  /** `:` on a quote header: the pop and the push of the quote body keep the invariant. */
  lemma HeaderEndInv(st: State, cfg: Config)
    requires Inv(st) && |st.mode| > 0 && Last(st.mode) == QuoteH
    requires Pop(st, cfg).Some? && Push(Pop(st, cfg).value, Quote, cfg).Some?
    ensures Inv(Push(Pop(st, cfg).value, Quote, cfg).value)
  {
    var st1 := Pop(st, cfg).value;
    PopInv(st, cfg);
    CountQDrop(st.mode);
    CountQSnoc(st1.mode, Quote);
    PushInv(st1, Quote, cfg);
  }

  /** Under the invariant, a dispatch step raises exactly when the mode stack is empty and the
      token opens nothing, or when it closes a quote body whose buffer is still empty. */
  lemma DispatchFails(st: State, tok: string, cfg: Config)
    requires Inv(st)
    ensures Dispatch(st, tok, cfg).None? <==>
      || (st.mode == [] && !Classify(tok).Open?)
      || (st.mode != [] && Last(st.mode) == Quote && |st.quoteBlocks| > 0 && Last(st.quoteBlocks) == []
          && Classify(tok).Close?)
  {
    var st0 := Counted(st, tok);
    var k := Classify(tok);
    assert Inv(st0);
    BufferExists(st);
    if st.mode != [] {
      assert Last(st.mode) in st.mode;
      FlushOkTop(st0, Last(st.mode));
    }
    if k.Close? {
      PopOkInv(st0);
    } else if Acts(st.mode, k) && k == HeaderEnd {
      HeaderEndOk(st0, cfg);
    } else if Acts(st.mode, k) && k == ContEnd {
      PopOkInv(st0);
    }
  }

  lemma HeaderEndOk(st: State, cfg: Config)
    requires Inv(st) && |st.mode| > 0 && Last(st.mode) == QuoteH
    ensures Pop(st, cfg).Some? && Push(Pop(st, cfg).value, Quote, cfg).Some?
  {
    PopOkInv(st);
    var st1 := Pop(st, cfg).value;
    PopInv(st, cfg);
    if st1.mode != [] {
      assert Last(st1.mode) in st1.mode;
      FlushOkTop(st1, Last(st1.mode));
    }
  }

  /** While a quote stays open across a dispatch step, nothing is executed: its statements go
      to the quote buffers. */
  lemma DispatchDeferred(st: State, tok: string, cfg: Config)
    requires Dispatch(st, tok, cfg).Some?
    requires Quote in st.mode && Quote in Dispatch(st, tok, cfg).value.mode
    ensures Dispatch(st, tok, cfg).value.executed == st.executed
  {
    var st0 := Counted(st, tok);
    var k := Classify(tok);
    assert Quote in st0.mode;
    DispatchModes(st, tok, cfg);
    if k.Close? || (Acts(st.mode, k) && k == ContEnd) {
      assert Quote in DropLast(st.mode);
    } else if Acts(st.mode, k) && k == HeaderEnd {
      HeaderEndDeferred(st0, cfg);
    }
  }

  lemma HeaderEndDeferred(st: State, cfg: Config)
    requires |st.mode| > 0 && Last(st.mode) == QuoteH && Quote in st.mode
    requires Pop(st, cfg).Some? && Push(Pop(st, cfg).value, Quote, cfg).Some?
    ensures Push(Pop(st, cfg).value, Quote, cfg).value.executed == st.executed
  {
    var rest := DropLast(st.mode);
    assert st.mode == rest + [QuoteH];
    assert Quote in rest;
    var st1 := Pop(st, cfg).value;
    var f := Flush(st.(mode := rest), QuoteH, cfg);
    assert f.Some? && f.value.executed == st.executed;
    assert st1.mode == rest && st1.executed == st.executed;
  }
}
