/** The parser state object of prethon.py:87-193 and `_emit` (prethon.py:196-200), updating its
    stacks in place. Each method is proved to leave the object in the state the corresponding
    function of `Machine` computes from the state before the call. A method's precondition is
    the condition under which the Python code does not raise. */
module Parser {
  import opened Wrappers
  import opened Text
  import Indent
  import opened Machine

  class ParserState {
    var mode: seq<Mode>
    var curBlock: seq<seq<string>>
    var quoteBlocks: seq<seq<string>>
    var indent: nat
    var lineno: nat
    /** The statements handed to `exec`, in order. */
    var executed: seq<string>
    /** The `output_line_nos` option and the `repr` function. */
    const cfg: Config

    /** The object's fields as a state value. */
    function Snapshot(): State
      reads this
    {
      State(mode, curBlock, quoteBlocks, indent, lineno, executed)
    }

    /** `__init__(mode, ...)`: empty stacks, line 1, then `push(mode)`. */
    constructor (m: Mode, cfg: Config)
      ensures this.cfg == cfg
      ensures Some(Snapshot()) == Machine.Push(Machine.Empty, m, cfg)
    {
      curBlock := [];
      quoteBlocks := [];
      indent := 0;
      mode := [];
      lineno := 1;
      executed := [];
      this.cfg := cfg;
      new;
      Push(m);
    }

    /** `push(mode)`: flush the current top mode, then open `m`. */
    method Push(m: Mode)
      modifies this
      requires mode == [] || FlushOk(Snapshot(), Last(mode))
      ensures Some(Snapshot()) == Machine.Push(old(Snapshot()), m, cfg)
    {
      if |mode| >= 1 {
        Flush(Last(mode));
      }
      mode := mode + [m];
      curBlock := curBlock + [[]];
      if m == QuoteH {
        quoteBlocks := quoteBlocks + [[]];
      }
    }

    /** `pop()`: close the top mode; a quote is composed from its buffer and run, any other mode
        is flushed. */
    method Pop()
      modifies this
      requires PopOk(Snapshot())
      ensures Some(Snapshot()) == Machine.Pop(old(Snapshot()), cfg)
    {
      ghost var st := Snapshot();
      var m := Last(mode);
      mode := DropLast(mode);
      ghost var st0 := st.(mode := DropLast(st.mode));
      assert Snapshot() == st0;
      if m == Quote {
        var blocks := Last(quoteBlocks);
        quoteBlocks := DropLast(quoteBlocks);
        assert Snapshot() == st0.(quoteBlocks := DropLast(st0.quoteBlocks));
        var s := QuoteFn(blocks);
        Run(s);
      } else {
        Flush(m);
      }
      curBlock := DropLast(curBlock);
    }

    /** `flush(mode)`: empty the top accumulator and run the statement made from its text. */
    method Flush(m: Mode)
      modifies this
      requires FlushOk(Snapshot(), m)
      ensures Some(Snapshot()) == Machine.Flush(old(Snapshot()), m, cfg)
    {
      ghost var st := Snapshot();
      var block := Concat(Last(curBlock));
      curBlock := DropLast(curBlock) + [[]];
      ghost var st1 := st.(curBlock := DropLast(st.curBlock) + [[]]);
      ghost var raw := Raw(m, block);
      var s := "";
      if block != "" {
        if m == Normal {
          s := "emit(" + cfg.repr(block) + ")\n";
        } else if m == Pre {
          s := block;
        } else if m == Expr {
          s := "emit(" + block + ")\n";
        } else if m == QuoteH || m == QuoteCont {
          quoteBlocks := AppendLast(quoteBlocks, [block]);
          s := "";
        }
      }
      assert Snapshot() == if raw != [] then st1.(quoteBlocks := AppendLast(st.quoteBlocks, raw)) else st1;
      assert s == Statement(m, block, cfg.repr);
      s := FixWs(s);
      Run(s);
      if cfg.lineNos {
        s := LineMarker(lineno);
        Run(s);
      }
    }

    /** `run(s)`: queue the statement in the innermost quote buffer while a quote is open,
        otherwise execute it unless it is empty. */
    method Run(s: string)
      modifies this
      requires Quote in mode ==> quoteBlocks != []
      ensures Some(Snapshot()) == Machine.Run(old(Snapshot()), s)
    {
      if Quote in mode {
        quoteBlocks := AppendLast(quoteBlocks, [s]);
      } else if s != "" {
        executed := executed + [s];
      }
    }

    /** `quote_fn(blocks)`: the header with its colon at the current indent, a line break, and
        the body four columns deeper; the indent is restored afterwards. */
    method QuoteFn(blocks: seq<string>) returns (r: string)
      modifies this`indent
      requires blocks != []
      ensures indent == old(indent)
      ensures Machine.QuoteFn(blocks, indent) == Some(r)
    {
      var header := blocks[0];
      var body := Concat(blocks[1..]);
      header := header + ":";
      header := FixWs(header);
      indent := indent + 4;
      body := FixWs(body);
      indent := indent - 4;
      r := Join([header, body]);
      assert Join([body]) == body;
    }

    /** `fix_ws(block)` with its two loops: the first non-blank line fixes the candidate prefix,
        each later non-blank line shortens its length to the first mismatch. The result is the
        declarative `Indent.FixWs`. */
    method FixWs(block: string) returns (r: string)
      ensures r == Indent.FixWs(block, indent)
    {
      var lines := Split(block);
      var pre: Option<string> := None;
      var l: nat := 0;
      var i := 0;
      while i < |lines|
        invariant 0 <= i <= |lines|
        invariant pre.None? <==> Indent.CommonWs(lines[..i]).None?
        invariant pre.None? ==> l == 0
        invariant pre.Some? ==> AllWs(pre.value) && l <= |pre.value|
                                && Indent.CommonWs(lines[..i]) == Some(pre.value[..l])
      {
        var line := lines[i];
        CommonWsSnoc(lines, i);
        if Blank(line) {
        } else if pre.None? {
          pre := Some(Indent.LeadingWs(line));
          l := |pre.value|;
          assert pre.value[..l] == pre.value;
        } else {
          l := Narrow(pre.value, l, line);
        }
        i := i + 1;
      }
      assert lines[..|lines|] == lines;
      var out := Indent.Reindent(lines, l, indent);
      r := Join(out) + "\n";
    }
  }

  /** How the common whitespace of the first `i + 1` lines follows from that of the first `i`. */
  lemma CommonWsSnoc(lines: seq<string>, i: nat)
    requires i < |lines|
    ensures Indent.CommonWs(lines[..i + 1]) ==
      if Blank(lines[i]) then Indent.CommonWs(lines[..i])
      else match Indent.CommonWs(lines[..i])
        case None => Some(Indent.LeadingWs(lines[i]))
        case Some(p) => Some(Indent.CommonPrefix(p, Indent.LeadingWs(lines[i])))
  {
    assert lines[..i + 1][..i] == lines[..i];
  }

  /** One step of the inner loop of `fix_ws`: shortening the candidate `p[..l0]` to `l` against a
      non-blank line gives the common prefix of the candidate and the line's leading whitespace. */
  lemma NarrowedPrefix(p: string, l0: nat, line: string, l: nat)
    requires AllWs(p) && l <= l0 <= |p| && l <= |line| && line[..l] == p[..l]
    requires l == l0 || l == |line| || line[l] != p[l]
    ensures Indent.CommonPrefix(p[..l0], Indent.LeadingWs(line)) == p[..l]
  {
    var a := p[..l0];
    var b := Indent.LeadingWs(line);
    WsPrefix(p, line, l);
    Indent.WsPrefixWithinLeading(line, l);
    PrefixOfPrefix(line, |b|, l);
    PrefixOfPrefix(p, l0, l);
    if l < l0 && l < |b| {
      assert b[l] == line[l] && a[l] == p[l];
    }
    Indent.CommonPrefixUnique(a, b, l);
  }

  lemma WsPrefix(p: string, line: string, l: nat)
    requires AllWs(p) && l <= |p| && l <= |line| && line[..l] == p[..l]
    ensures AllWs(line[..l])
  {
    forall k | 0 <= k < l ensures IsWs(line[..l][k]) {
      assert line[..l][k] == p[k];
    }
  }

  /** The inner loop of `fix_ws`: the candidate prefix `p[..l]` is cut at the first column where
      `line` differs from it or ends. */
  method Narrow(p: string, l: nat, line: string) returns (n: nat)
    requires AllWs(p) && l <= |p|
    ensures n <= l
    ensures Indent.CommonPrefix(p[..l], Indent.LeadingWs(line)) == p[..n]
  {
    n := l;
    var x := 0;
    while x < l
      invariant 0 <= x <= l && n == l && x <= |line| && line[..x] == p[..x]
    {
      if x >= |line| || line[x] != p[x] {
        n := x;
        break;
      }
      assert line[..x + 1] == line[..x] + [line[x]];
      assert p[..x + 1] == p[..x] + [p[x]];
      x := x + 1;
    }
    NarrowedPrefix(p, l, line, n);
  }

  /** `_emit(state, tok)`: the token joins the top accumulator; directly inside a quote body a
      non-empty token is also queued as an `emit` statement. */
  method Emit(state: ParserState, tok: string)
    modifies state
    requires state.curBlock != [] && state.mode != []
    requires Last(state.mode) == Quote && tok != "" ==> state.quoteBlocks != []
    ensures Some(state.Snapshot()) == Machine.Emit(old(state.Snapshot()), tok, state.cfg)
  {
    state.curBlock := AppendLast(state.curBlock, [tok]);
    if Last(state.mode) == Quote && tok != "" {
      var s := EmitStatement(tok, state.cfg.repr);
      state.quoteBlocks := AppendLast(state.quoteBlocks, [s]);
    }
  }
}
