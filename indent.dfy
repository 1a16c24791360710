/** The indentation normaliser `fix_ws` (prethon.py:172-193) as a function of the block and the
    indent, with the properties of the amount it strips and of the shape of its output. */
module Indent {
  import opened Wrappers
  import opened Text

  /** `re.match('\\s*', line).group(0)`: the longest whitespace prefix of `s`. */
  function LeadingWs(s: string): (p: string)
    ensures |p| <= |s| && p == s[..|p|] && AllWs(p)
    ensures |p| == |s| || !IsWs(s[|p|])
  {
    if s != [] && IsWs(s[0]) then [s[0]] + LeadingWs(s[1..]) else []
  }

  /** A whitespace prefix of `s` is a prefix of its leading whitespace. */
  lemma WsPrefixWithinLeading(s: string, k: nat)
    requires k <= |s| && AllWs(s[..k])
    ensures k <= |LeadingWs(s)|
  {
  }

  /** The longest common prefix of `a` and `b`. */
  function CommonPrefix(a: string, b: string): (r: string)
    ensures |r| <= |a| && |r| <= |b| && r == a[..|r|] && r == b[..|r|]
    ensures |r| == |a| || |r| == |b| || a[|r|] != b[|r|]
  {
    if a == [] || b == [] || a[0] != b[0] then []
    else
      var r := [a[0]] + CommonPrefix(a[1..], b[1..]);
      assert a[..|r|] == [a[0]] + a[1..][..|r| - 1];
      assert b[..|r|] == [b[0]] + b[1..][..|r| - 1];
      r
  }

  /** Any common prefix that cannot be extended is the longest one. */
  lemma CommonPrefixUnique(a: string, b: string, k: nat)
    requires k <= |a| && k <= |b| && a[..k] == b[..k]
    requires k == |a| || k == |b| || a[k] != b[k]
    ensures CommonPrefix(a, b) == a[..k]
  {
  }

  /** The common leading whitespace of the non-blank lines, processed in order; None when every
      line is blank. */
  function CommonWs(lines: seq<string>): (r: Option<string>)
    ensures r.Some? ==> AllWs(r.value)
  {
    if lines == [] then None
    else
      var last := lines[|lines| - 1];
      var rest := CommonWs(lines[..|lines| - 1]);
      if Blank(last) then rest
      else match rest
        case None => Some(LeadingWs(last))
        case Some(p) =>
          var c := CommonPrefix(p, LeadingWs(last));
          assert forall i :: 0 <= i < |c| ==> c[i] == p[i];
          Some(c)
  }

  /** The number of characters `fix_ws` strips from each non-blank line (`l` after the loop). */
  function Width(lines: seq<string>): nat {
    match CommonWs(lines)
    case None => 0
    case Some(p) => |p|
  }

  predicate HasText(lines: seq<string>) {
    exists i :: 0 <= i < |lines| && !Blank(lines[i])
  }

  /** Every non-blank line is at least `k` long, begins with `k` whitespace characters, and all
      non-blank lines agree on those first `k` characters. */
  predicate SharesWs(lines: seq<string>, k: nat) {
    && (forall i :: 0 <= i < |lines| && !Blank(lines[i]) ==> k <= |lines[i]| && AllWs(lines[i][..k]))
    && (forall i, j :: 0 <= i < |lines| && 0 <= j < |lines| && !Blank(lines[i]) && !Blank(lines[j])
          ==> lines[i][..k] == lines[j][..k])
  }

  lemma HasTextSnoc(lines: seq<string>)
    requires |lines| > 0
    ensures HasText(lines) <==> HasText(DropLast(lines)) || !Blank(Last(lines))
  {
    var init := DropLast(lines);
    if HasText(lines) && Blank(Last(lines)) {
      var i :| 0 <= i < |lines| && !Blank(lines[i]);
      assert init[i] == lines[i];
    }
    if HasText(init) {
      var i :| 0 <= i < |init| && !Blank(init[i]);
      assert lines[i] == init[i];
    }
  }

  lemma SharesWsInit(lines: seq<string>, k: nat)
    requires |lines| > 0 && SharesWs(lines, k)
    ensures SharesWs(DropLast(lines), k)
  {
    var init := DropLast(lines);
    assert forall i :: 0 <= i < |init| ==> init[i] == lines[i];
  }

  /** `CommonWs` finds nothing exactly when every line is blank. */
  lemma {:induction false} CommonWsNone(lines: seq<string>)
    ensures CommonWs(lines).None? <==> !HasText(lines)
    decreases |lines|
  {
    if lines == [] {
    } else {
      CommonWsNone(DropLast(lines));
      HasTextSnoc(lines);
    }
  }

  /** The string `CommonWs` finds begins every non-blank line. */
  lemma {:induction false} CommonWsPrefix(lines: seq<string>, i: nat)
    requires i < |lines| && !Blank(lines[i]) && CommonWs(lines).Some?
    ensures |CommonWs(lines).value| <= |lines[i]|
    ensures lines[i][..|CommonWs(lines).value|] == CommonWs(lines).value
    decreases |lines|
  {
    var n := |lines| - 1;
    var init := DropLast(lines);
    var last := Last(lines);
    var lw := LeadingWs(last);
    if !Blank(last) && CommonWs(init).Some? {
      var p := CommonWs(init).value;
      var c := CommonPrefix(p, lw);
      if i < n {
        assert init[i] == lines[i];
        CommonWsPrefix(init, i);
        assert lines[i][..|c|] == lines[i][..|p|][..|c|];
      } else {
        assert lines[i][..|c|] == lw[..|c|];
      }
    } else if !Blank(last) {
      if i < n {
        assert init[i] == lines[i];
        CommonWsNone(init);
        assert HasText(init);
      }
    } else {
      assert i < n && init[i] == lines[i];
      CommonWsPrefix(init, i);
    }
  }

  /** No whitespace prefix longer than the one `CommonWs` finds is shared by the non-blank lines. */
  lemma {:induction false} CommonWsLongest(lines: seq<string>, k: nat)
    requires CommonWs(lines).Some? && SharesWs(lines, k)
    ensures k <= |CommonWs(lines).value|
    decreases |lines|
  {
    var n := |lines| - 1;
    var init := DropLast(lines);
    var last := Last(lines);
    var lw := LeadingWs(last);
    SharesWsInit(lines, k);
    if Blank(last) {
      CommonWsLongest(init, k);
    } else {
      assert !Blank(lines[n]);
      WsPrefixWithinLeading(last, k);
      if CommonWs(init).Some? {
        var p := CommonWs(init).value;
        assert CommonWs(lines) == Some(CommonPrefix(p, lw));
        CommonWsLongest(init, k);
        CommonWsNone(init);
        var i0 :| 0 <= i0 < |init| && !Blank(init[i0]);
        assert lines[i0] == init[i0];
        CommonWsPrefix(init, i0);
        PrefixOfPrefix(init[i0], |p|, k);
        PrefixOfPrefix(last, |lw|, k);
        assert lines[i0][..k] == lines[n][..k];
        CommonPrefixLongest(p, lw, k);
      }
    }
  }

  /** A prefix shared by `a` and `b` is no longer than their longest common prefix. */
  lemma CommonPrefixLongest(a: string, b: string, k: nat)
    requires k <= |a| && k <= |b| && a[..k] == b[..k]
    ensures k <= |CommonPrefix(a, b)|
  {
    forall i | 0 <= i < k ensures a[i] == b[i] {
      assert a[i] == a[..k][i] && b[i] == b[..k][i];
    }
  }

  /** The amount `fix_ws` strips is the longest whitespace prefix shared by every non-blank
      line: the same for every such line, whitespace only, and not extendable. */
  lemma WidthIsLongestSharedWs(lines: seq<string>)
    ensures SharesWs(lines, Width(lines))
    ensures HasText(lines) ==> forall k: nat :: SharesWs(lines, k) ==> k <= Width(lines)
    ensures !HasText(lines) ==> Width(lines) == 0
  {
    CommonWsNone(lines);
    if CommonWs(lines).Some? {
      var p := CommonWs(lines).value;
      forall i | 0 <= i < |lines| && !Blank(lines[i]) ensures |p| <= |lines[i]| && lines[i][..|p|] == p {
        CommonWsPrefix(lines, i);
      }
      forall k: nat | SharesWs(lines, k) ensures k <= |p| {
        CommonWsLongest(lines, k);
      }
    }
  }

  /** Nothing is stripped once one non-blank line starts with a non-whitespace character. */
  lemma WidthZeroWhenUnindented(lines: seq<string>, i: nat)
    requires i < |lines| && |lines[i]| > 0 && !IsWs(lines[i][0])
    ensures Width(lines) == 0
  {
    WidthIsLongestSharedWs(lines);
    assert !Blank(lines[i]);
  }

  /** Python's `s[k:]`, for any `k`. */
  function Drop(s: string, k: nat): string {
    if k <= |s| then s[k..] else ""
  }

  /** The two list comprehensions of prethon.py:190-191. */
  function Reindent(lines: seq<string>, w: nat, indent: nat): (r: seq<string>)
    ensures |r| == |lines|
  {
    seq(|lines|, i requires 0 <= i < |lines| =>
      Spaces(indent) + (if !Blank(lines[i]) then Drop(lines[i], w) else lines[i]))
  }

  /** `fix_ws(block)` at indent `indent`. */
  function FixWs(block: string, indent: nat): (r: string)
    ensures |r| > 0 && r[|r| - 1] == '\n'
  {
    var lines := Split(block);
    Join(Reindent(lines, Width(lines), indent)) + "\n"
  }

  /** The output has one line per input line, each being `indent` spaces and then the input line
      with the common whitespace prefix removed (blank lines kept whole), followed by a final
      line break. */
  lemma FixWsShape(block: string, indent: nat)
    ensures var r := FixWs(block, indent);
      var ls := Split(block);
      var w := Width(ls);
      var out := Split(r[..|r| - 1]);
      && |out| == |ls| == CountNl(block) + 1
      && (forall i :: 0 <= i < |ls| && Blank(ls[i]) ==> out[i] == Spaces(indent) + ls[i])
      && (forall i :: 0 <= i < |ls| && !Blank(ls[i]) ==>
            w <= |ls[i]| && AllWs(ls[i][..w]) && out[i] == Spaces(indent) + ls[i][w..])
  {
    var r := FixWs(block, indent);
    var ls := Split(block);
    var w := Width(ls);
    var re := Reindent(ls, w, indent);
    WidthIsLongestSharedWs(ls);
    SplitCount(block);
    forall i | 0 <= i < |re| ensures '\n' !in re[i] {
      assert '\n' !in ls[i];
      assert '\n' !in Spaces(indent);
    }
    assert r[..|r| - 1] == Join(re);
    SplitJoin(re);
  }

  /** `line` begins with `n` spaces. */
  predicate Indented(line: string, n: nat) {
    n <= |line| && line[..n] == Spaces(n)
  }

  /** Every output line begins with `indent` spaces, one output line per input line. */
  lemma FixWsIndented(block: string, indent: nat)
    ensures var r := FixWs(block, indent);
      var out := Split(r[..|r| - 1]);
      && |out| == CountNl(block) + 1
      && forall i :: 0 <= i < |out| ==> Indented(out[i], indent)
  {
    FixWsShape(block, indent);
    var r := FixWs(block, indent);
    var out := Split(r[..|r| - 1]);
    var ls := Split(block);
    forall i | 0 <= i < |out| ensures Indented(out[i], indent) {
      if Blank(ls[i]) {
        assert out[i] == Spaces(indent) + ls[i];
      } else {
        assert out[i] == Spaces(indent) + ls[i][Width(ls)..];
      }
    }
  }

  /** Line `i` of the output, for a non-blank input line. */
  lemma FixWsLineAt(block: string, indent: nat, i: nat)
    requires i < |Split(block)| && !Blank(Split(block)[i])
    ensures var r := FixWs(block, indent);
      var ls := Split(block);
      var out := Split(r[..|r| - 1]);
      && |out| == |ls| && Width(ls) <= |ls[i]| && AllWs(ls[i][..Width(ls)])
      && out[i] == Spaces(indent) + ls[i][Width(ls)..]
  {
    FixWsShape(block, indent);
  }

  lemma StripKeepsLast(line: string, w: nat)
    requires w <= |line| && AllWs(line[..w]) && |line| > 0 && !IsWs(Last(line))
    ensures |line[w..]| > 0 && Last(line[w..]) == Last(line)
  {
    assert line[..|line|] == line;
  }

  /** A block ending in a colon keeps the colon at the end of its last output line. */
  lemma FixWsColon(block: string, indent: nat)
    requires |block| > 0 && block[|block| - 1] == ':'
    ensures var r := FixWs(block, indent);
      var out := Split(r[..|r| - 1]);
      |Last(out)| > 0 && Last(Last(out)) == ':'
  {
    SplitLastChar(block);
    var ls := Split(block);
    var k := |ls| - 1;
    var line := ls[k];
    assert Last(line) == ':' && !IsWs(':');
    assert !Blank(line);
    FixWsLineAt(block, indent, k);
    var w := Width(ls);
    StripKeepsLast(line, w);
    var r := FixWs(block, indent);
    var out := Split(r[..|r| - 1]);
    var tail := line[w..];
    assert Last(out) == Spaces(indent) + tail;
    assert Last(Spaces(indent) + tail) == Last(tail);
  }

  lemma FixWsEmpty(indent: nat)
    ensures FixWs("", indent) == Spaces(indent) + "\n"
  {
    assert Split("") == [""];
    assert Blank("");
  }

  /** The statement form `emit(x)` followed by a line break, with `x` free of line breaks, keeps
      its text and gets one indented empty line after it. */
  lemma FixWsEmitLine(x: string, indent: nat)
    requires '\n' !in x
    ensures FixWs("emit(" + x + ")\n", indent) == Spaces(indent) + "emit(" + x + ")\n" + Spaces(indent) + "\n"
  {
    var line := "emit(" + x + ")";
    assert '\n' !in line;
    assert "emit(" + x + ")\n" == line + "\n" + "";
    SplitAtBreak(line, "");
    var ls := Split(line + "\n" + "");
    assert ls == [line, ""];
    WidthZeroWhenUnindented(ls, 0);
    assert Blank("");
    assert line[0] == 'e' && !Blank(line);
    var re := Reindent(ls, 0, indent);
    assert re[0] == Spaces(indent) + line && re[1] == Spaces(indent) + "";
    assert Join(re) == re[0] + "\n" + re[1];
  }
}
