/** `tokenize` (prethon.py:202-218) and the delimiter table (prethon.py:73-84). */
module Tokenizer {
  import opened Wrappers
  import opened Text

  const PRE_START := "<@"
  const PRE_END := "@>"
  const EXPR_START := "<$"
  const EXPR_END := "$>"
  const QUOTE_H_START := "<#"
  const QUOTE_H_END := ":"
  const QUOTE_CONT_START := "##"
  const QUOTE_CONT_END := "\n"
  const QUOTE_END := "#>"

  /** The delimiter table; its order decides ties between delimiters starting at one offset. */
  const DELIMS: seq<string> := [PRE_START, PRE_END, EXPR_START, EXPR_END, QUOTE_H_START,
                                QUOTE_H_END, QUOTE_CONT_START, QUOTE_CONT_END, QUOTE_END]

  lemma DelimsNonEmpty()
    ensures |DELIMS| == 9
    ensures forall j :: 0 <= j < |DELIMS| ==> |DELIMS[j]| > 0
  {
  }

  /** A match of delimiter `DELIMS[which]` at offset `at`. */
  datatype Hit = Hit(at: nat, which: nat)

  /** No delimiter of the table occurs anywhere in `s`. */
  predicate NoDelim(s: string) {
    forall j, p :: 0 <= j < |DELIMS| && 0 <= p <= |s| ==> !OccursAt(s, DELIMS[j], p)
  }

  /** `h` is the earliest-starting delimiter in `s`, the first in table order among those
      starting there. */
  predicate IsEarliest(s: string, h: Hit) {
    && h.which < |DELIMS|
    && OccursAt(s, DELIMS[h.which], h.at)
    && (forall j, p :: 0 <= j < |DELIMS| && 0 <= p < h.at ==> !OccursAt(s, DELIMS[j], p))
    && (forall j :: 0 <= j < h.which ==> !OccursAt(s, DELIMS[j], h.at))
  }

  /** What the scan over `DELIMS[..n]` has found so far: the least `find` offset, the first
      entry among those reaching it, or nothing when no entry occurs. */
  predicate EarliestAmong(s: string, n: nat, best: Option<Hit>)
    requires n <= |DELIMS|
  {
    match best
    case None => forall j :: 0 <= j < n ==> Find(s, DELIMS[j]) == -1
    case Some(h) =>
      && h.which < n
      && Find(s, DELIMS[h.which]) == h.at
      && (forall j :: 0 <= j < n ==> Find(s, DELIMS[j]) == -1 || h.at <= Find(s, DELIMS[j]))
      && (forall j :: 0 <= j < h.which ==> Find(s, DELIMS[j]) != h.at)
  }

  /** The `for d in delims` loop of prethon.py:206-210 from entry `k` on, `best` holding `idx`
      and `t`; an entry replaces the best only when it starts strictly earlier. */
  function ScanFrom(s: string, k: nat, best: Option<Hit>): (r: Option<Hit>)
    requires k <= |DELIMS| && EarliestAmong(s, k, best)
    ensures EarliestAmong(s, |DELIMS|, r)
    decreases |DELIMS| - k
  {
    if k == |DELIMS| then best
    else
      var i := Find(s, DELIMS[k]);
      var next := if i != -1 && (best.None? || i < best.value.at) then Some(Hit(i, k)) else best;
      ScanStep(s, k, best, next);
      ScanFrom(s, k + 1, next)
  }

  /** One entry of the scan keeps what `EarliestAmong` says of the entries seen. */
  lemma ScanStep(s: string, k: nat, best: Option<Hit>, next: Option<Hit>)
    requires k < |DELIMS| && EarliestAmong(s, k, best)
    requires var i := Find(s, DELIMS[k]);
      next == if i != -1 && (best.None? || i < best.value.at) then Some(Hit(i, k)) else best
    ensures EarliestAmong(s, k + 1, next)
  {
  }

  /** The delimiter `tokenize` cuts at next, or None when no delimiter occurs. */
  function Earliest(s: string): (r: Option<Hit>)
    ensures r.Some? ==> r.value.which < |DELIMS| && 0 < |DELIMS[r.value.which]|
                        && OccursAt(s, DELIMS[r.value.which], r.value.at)
  {
    var r := ScanFrom(s, 0, None);
    ScanResult(s, r);
    r
  }

  lemma EarliestMeaning(s: string)
    ensures Earliest(s).Some? ==> IsEarliest(s, Earliest(s).value)
    ensures Earliest(s).None? ==> NoDelim(s)
  {
    ScanResult(s, ScanFrom(s, 0, None));
  }

  /** What a completed scan means in terms of occurrences. */
  lemma ScanResult(s: string, r: Option<Hit>)
    requires EarliestAmong(s, |DELIMS|, r)
    ensures r.Some? ==> IsEarliest(s, r.value) && |DELIMS[r.value.which]| > 0
    ensures r.None? ==> NoDelim(s)
  {
    DelimsNonEmpty();
    if r.Some? {
      var h := r.value;
      assert forall j, p :: 0 <= j < |DELIMS| && 0 <= p < h.at ==> !OccursAt(s, DELIMS[j], p);
      assert forall j :: 0 <= j < h.which ==> !OccursAt(s, DELIMS[j], h.at);
    } else {
      forall j, p | 0 <= j < |DELIMS| && 0 <= p <= |s| && OccursAt(s, DELIMS[j], p)
        ensures false
      {
        assert Contains(s, DELIMS[j]);
      }
    }
  }

  /** A literal cut off before the earliest delimiter holds no delimiter. */
  lemma LiteralBeforeEarliest(s: string, h: Hit)
    requires IsEarliest(s, h)
    ensures NoDelim(s[..h.at])
  {
    DelimsNonEmpty();
    var lit := s[..h.at];
    forall j, p | 0 <= j < |DELIMS| && 0 <= p <= |lit| && OccursAt(lit, DELIMS[j], p)
      ensures false
    {
      assert s[p..p + |DELIMS[j]|] == lit[p..p + |DELIMS[j]|];
      assert OccursAt(s, DELIMS[j], p);
    }
  }

  /** The shape of a token list: literal runs holding no delimiter at even positions,
      delimiters at odd positions, and never an empty literal at the end. */
  predicate Alternating(toks: seq<string>) {
    && (forall i :: 0 <= i < |toks| && i % 2 == 0 ==> NoDelim(toks[i]))
    && (forall i :: 0 <= i < |toks| && i % 2 == 1 ==> toks[i] in DELIMS)
    && (|toks| % 2 == 1 ==> toks[|toks| - 1] != "")
  }

  lemma AlternatingCons(lit: string, d: string, rest: seq<string>)
    requires NoDelim(lit) && d in DELIMS && Alternating(rest)
    ensures Alternating([lit, d] + rest)
  {
    var toks := [lit, d] + rest;
    forall i | 2 <= i < |toks| ensures toks[i] == rest[i - 2] && (i % 2 == (i - 2) % 2) {
    }
  }

  /** `tokenize(s, DELIMS)`: the tokens spell `s` back, and there are none only for empty `s`. */
  function Tokenize(s: string): (toks: seq<string>)
    ensures Concat(toks) == s
    ensures s != "" <==> toks != []
    decreases |s|
  {
    if s == "" then []
    else match Earliest(s)
      case None => [s]
      case Some(h) =>
        var d := DELIMS[h.which];
        var rest := Tokenize(s[h.at + |d|..]);
        ConcatCons(s, h.at, d, rest);
        [s[..h.at], d] + rest
  }

  lemma ConcatCons(s: string, at: nat, d: string, rest: seq<string>)
    requires at + |d| <= |s| && s[at..at + |d|] == d && Concat(rest) == s[at + |d|..]
    ensures Concat([s[..at], d] + rest) == s
  {
    assert ([s[..at], d] + rest)[1..] == [d] + rest;
    assert ([d] + rest)[1..] == rest;
    assert s == s[..at] + d + s[at + |d|..];
  }

  /** The text left after the first literal and delimiter; empty when no delimiter occurs. */
  function Remainder(s: string): string {
    match Earliest(s)
    case None => ""
    case Some(h) => s[h.at + |DELIMS[h.which]|..]
  }

  lemma TokenizeUnfold(s: string)
    requires |Tokenize(s)| > 1
    ensures Earliest(s).Some?
    ensures var h := Earliest(s).value;
      Tokenize(s) == [s[..h.at], DELIMS[h.which]] + Tokenize(Remainder(s))
  {
    TokenizeHasHit(s);
    TokenizeStep(s);
  }

  lemma TokenizeHasHit(s: string)
    requires |Tokenize(s)| > 1
    ensures Earliest(s).Some?
  {
  }

  lemma TokenizeStep(s: string)
    requires s != "" && Earliest(s).Some?
    ensures var h := Earliest(s).value;
      Tokenize(s) == [s[..h.at], DELIMS[h.which]] + Tokenize(Remainder(s))
  {
  }

  lemma TokenizeTail(s: string)
    requires |Tokenize(s)| > 1
    ensures Tokenize(s)[2..] == Tokenize(Remainder(s)) && |Remainder(s)| < |s|
  {
    TokenizeUnfold(s);
    var h := Earliest(s).value;
    var rt := Tokenize(Remainder(s));
    assert ([s[..h.at], DELIMS[h.which]] + rt)[2..] == rt;
  }

  /** The tokens alternate: literal runs holding no delimiter, then delimiters of the table,
      never ending on an empty literal. */
  lemma {:induction false} TokenizeAlternates(s: string)
    ensures Alternating(Tokenize(s))
    decreases |s|
  {
    var toks := Tokenize(s);
    if s != "" {
      EarliestMeaning(s);
      if Earliest(s).Some? {
        var h := Earliest(s).value;
        TokenizeAlternates(Remainder(s));
        LiteralBeforeEarliest(s, h);
        AlternatingCons(s[..h.at], DELIMS[h.which], Tokenize(Remainder(s)));
      }
    }
  }

  /** `d` is the delimiter cut from `text` right after the literal `lit`: the earliest-starting
      delimiter in `text`, and the first in table order among those starting there. */
  predicate CutAt(text: string, lit: string, d: string) {
    exists j :: 0 <= j < |DELIMS| && DELIMS[j] == d && IsEarliest(text, Hit(|lit|, j))
  }

  /** The first delimiter token is cut at the earliest delimiter of the whole text. */
  lemma TokenizeHead(s: string)
    requires |Tokenize(s)| > 1
    ensures CutAt(s, Tokenize(s)[0], Tokenize(s)[1])
  {
    TokenizeUnfold(s);
    EarliestMeaning(s);
    var h := Earliest(s).value;
    assert |Tokenize(s)[0]| == h.at;
  }

  /** Each delimiter token (the one at position `2 * k + 1`) was cut at the earliest delimiter
      of the text that remained after the tokens before it. */
  lemma {:induction false} TokenizeEarliest(s: string, k: nat)
    requires 2 * k + 1 < |Tokenize(s)|
    ensures CutAt(Concat(Tokenize(s)[2 * k..]), Tokenize(s)[2 * k], Tokenize(s)[2 * k + 1])
    decreases |s|
  {
    var toks := Tokenize(s);
    if k == 0 {
      TokenizeHead(s);
      assert toks[0..] == toks;
    } else {
      TokenizeTail(s);
      var rest := Remainder(s);
      var rt := Tokenize(rest);
      TokenizeEarliest(rest, k - 1);
      assert toks[2 * k..] == rt[2 * (k - 1)..];
      assert toks[2 * k] == rt[2 * (k - 1)] && toks[2 * k + 1] == rt[2 * (k - 1) + 1];
    }
  }
}
