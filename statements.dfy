/** The statements the parser generates: what `flush` runs for each mode (prethon.py:128-141)
    and the layout of a quote composed by `quote_fn` (prethon.py:157-169). */
module Statements {
  import opened Text
  import opened Indent
  import opened Machine

  /** The statement `flush` runs for an accumulated `block` in mode `m`, after re-indentation:
      an empty line for an empty block and for the quote modes, one `emit` line followed by an
      indented empty line for literal text and for a one-line expression, and the block itself
      re-indented for code. */
  lemma FlushedStatement(m: Mode, block: string, indent: nat, repr: string -> string)
    requires ReprOk(repr)
    ensures var s := FixWs(Statement(m, block, repr), indent);
      && (block == "" || m == QuoteH || m == QuoteCont || m == Quote ==> s == Spaces(indent) + "\n")
      && (block != "" && m == Normal ==>
            s == Spaces(indent) + "emit(" + repr(block) + ")\n" + Spaces(indent) + "\n")
      && (block != "" && m == Expr && '\n' !in block ==>
            s == Spaces(indent) + "emit(" + block + ")\n" + Spaces(indent) + "\n")
      && (m == Pre ==> s == FixWs(block, indent))
  {
    FixWsEmpty(indent);
    if block != "" {
      FixWsEmitLine(repr(block), indent);
      if '\n' !in block {
        FixWsEmitLine(block, indent);
      }
    }
  }

  /** The text `quote_fn` returns: the header lines, each indented by `indent` and the last
      ending with the colon, then an empty line, then the body lines indented four columns
      deeper, then a final line break. */
  lemma QuoteFnLayout(blocks: seq<string>, indent: nat)
    requires blocks != []
    ensures var r := QuoteFn(blocks, indent).value;
      var head := FixWs(blocks[0] + ":", indent);
      var body := FixWs(Concat(blocks[1..]), indent + 4);
      var hl := Split(head[..|head| - 1]);
      var bl := Split(body[..|body| - 1]);
      && Split(r) == hl + [""] + bl + [""]
      && |hl| == CountNl(blocks[0]) + 1 && |bl| == CountNl(Concat(blocks[1..])) + 1
      && (forall i :: 0 <= i < |hl| ==> Indented(hl[i], indent))
      && (forall i :: 0 <= i < |bl| ==> Indented(bl[i], indent + 4))
      && |Last(hl)| > 0 && Last(Last(hl)) == ':'
  {
    var head := FixWs(blocks[0] + ":", indent);
    var body := FixWs(Concat(blocks[1..]), indent + 4);
    var h := head[..|head| - 1];
    var b := body[..|body| - 1];
    StripNl(head);
    StripNl(body);
    assert QuoteFn(blocks, indent).value == head + "\n" + body;
    SplitThree(h, b);
    HeaderLines(blocks[0], indent);
    FixWsIndented(Concat(blocks[1..]), indent + 4);
  }

  lemma StripNl(s: string)
    requires |s| > 0 && s[|s| - 1] == '\n'
    ensures s == s[..|s| - 1] + "\n"
  {
  }

  /** The lines of a header with its line break, a line break, and a body with its line break. */
  lemma SplitThree(h: string, b: string)
    ensures Split((h + "\n") + "\n" + (b + "\n")) == Split(h) + [""] + Split(b) + [""]
  {
    var t2 := b + "\n" + "";
    var t1 := "" + "\n" + t2;
    Regroup(h, b);
    SplitAppend(b, "");
    SplitAppend("", t2);
    SplitAppend(h, t1);
    var e := Split("");
    assert e == [""];
    Around(Split(h), Split(b), e, "");
  }

  lemma Regroup(h: string, b: string)
    ensures (h + "\n") + "\n" + (b + "\n") == h + "\n" + ("" + "\n" + (b + "\n" + ""))
  {
  }

  lemma Around<T>(x: seq<T>, y: seq<T>, e: seq<T>, d: T)
    requires e == [d]
    ensures x + (e + (y + e)) == x + [d] + y + [d]
  {
  }

  /** The header part of `quote_fn`: one line more than the header has line breaks, each indented,
      the last ending with the colon. */
  lemma HeaderLines(header: string, indent: nat)
    ensures var head := FixWs(header + ":", indent);
      var hl := Split(head[..|head| - 1]);
      && |hl| == CountNl(header) + 1
      && (forall i :: 0 <= i < |hl| ==> Indented(hl[i], indent))
      && |Last(hl)| > 0 && Last(Last(hl)) == ':'
  {
    FixWsIndented(header + ":", indent);
    FixWsColon(header + ":", indent);
    CountNlAppend(header, ":");
    assert CountNl(":") == 0;
  }
}
