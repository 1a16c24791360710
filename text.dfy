/** String and sequence helpers standing for the Python built-ins the preprocessor uses:
    `''.join`, `str.split('\n')`, `'\n'.join`, `str.find`, `str.count('\n')`, `str.strip`
    and the regular-expression class `\s`. */
module Text {

  /** Python's whitespace: the characters for which `str.isspace()` holds. The same predicate
      stands for what `str.strip()` removes and for what the pattern `\s` matches. */
  predicate IsWs(c: char) {
    c == ' ' || c == '\t' || c == '\n' || c == '\r' || c == '\U{000B}' || c == '\U{000C}'
    || ('\U{001C}' <= c <= '\U{001F}') || c == '\U{0085}' || c == '\U{00A0}' || c == '\U{1680}'
    || ('\U{2000}' <= c <= '\U{200A}') || c == '\U{2028}' || c == '\U{2029}' || c == '\U{202F}'
    || c == '\U{205F}' || c == '\U{3000}'
  }

  predicate AllWs(s: string) {
    forall i :: 0 <= i < |s| ==> IsWs(s[i])
  }

  /** `not line.strip()`: the line holds whitespace only (or nothing). */
  predicate Blank(s: string) {
    AllWs(s)
  }

  /** `' ' * n` */
  function Spaces(n: nat): (r: string)
    ensures |r| == n && forall i :: 0 <= i < n ==> r[i] == ' '
  {
    seq(n, _ => ' ')
  }

  /** `s.count('\n')` */
  function CountNl(s: string): nat {
    multiset(s)['\n']
  }

  /** `''.join(ss)` */
  function Concat(ss: seq<string>): string {
    if ss == [] then "" else ss[0] + Concat(ss[1..])
  }

  lemma {:induction false} ConcatAppend(ss: seq<string>, t: seq<string>)
    ensures Concat(ss + t) == Concat(ss) + Concat(t)
  {
    if ss == [] {
      assert ss + t == t;
    } else {
      assert (ss + t)[1..] == ss[1..] + t;
      ConcatAppend(ss[1..], t);
    }
  }

  /** A sequence split into its first `k` elements, element `k` and the rest. */
  lemma ConcatAt(ss: seq<string>, k: nat)
    requires k < |ss|
    ensures Concat(ss) == Concat(ss[..k]) + ss[k] + Concat(ss[k + 1..])
  {
    assert ss == ss[..k] + ss[k..];
    ConcatAppend(ss[..k], ss[k..]);
    assert ss[k..][1..] == ss[k + 1..];
  }

  /** `s.split('\n')`: the pieces between line breaks; there is always at least one. */
  function Split(s: string): (r: seq<string>)
    ensures |r| > 0
    ensures forall i :: 0 <= i < |r| ==> '\n' !in r[i]
  {
    if s == "" then [""]
    else
      var rest := Split(s[1..]);
      if s[0] == '\n' then [""] + rest
      else [[s[0]] + rest[0]] + rest[1..]
  }

  /** `'\n'.join(ls)` */
  function Join(ls: seq<string>): string {
    if ls == [] then ""
    else if |ls| == 1 then ls[0]
    else ls[0] + "\n" + Join(ls[1..])
  }

  lemma {:induction false} SplitCount(s: string)
    ensures |Split(s)| == CountNl(s) + 1
  {
    if s != "" {
      SplitCount(s[1..]);
      assert s == [s[0]] + s[1..];
      assert multiset(s) == multiset([s[0]]) + multiset(s[1..]);
    }
  }

  lemma {:induction false} JoinSplit(s: string)
    ensures Join(Split(s)) == s
  {
    if s != "" {
      var rest := Split(s[1..]);
      JoinSplit(s[1..]);
      if s[0] == '\n' {
        assert ([""] + rest)[1..] == rest;
      } else {
        var r := [[s[0]] + rest[0]] + rest[1..];
        if |rest| == 1 {
          assert Join(rest) == rest[0];
        } else {
          assert r[1..] == rest[1..];
          assert Join(rest) == rest[0] + "\n" + Join(rest[1..]);
        }
      }
    }
  }

  /** Splitting a joined list of line-break-free lines gives the lines back. */
  lemma {:induction false} SplitJoin(ls: seq<string>)
    requires |ls| > 0
    requires forall i :: 0 <= i < |ls| ==> '\n' !in ls[i]
    ensures Split(Join(ls)) == ls
  {
    if |ls| == 1 {
      SplitNoBreak(ls[0]);
    } else {
      SplitJoin(ls[1..]);
      SplitAtBreak(ls[0], Join(ls[1..]));
    }
  }

  lemma {:induction false} SplitNoBreak(x: string)
    requires '\n' !in x
    ensures Split(x) == [x]
  {
    if x != "" {
      assert x[0] in x;
      SplitNoBreak(x[1..]);
      assert [x[0]] + x[1..] == x;
    }
  }

  lemma {:induction false} SplitAtBreak(x: string, t: string)
    requires '\n' !in x
    ensures Split(x + "\n" + t) == [x] + Split(t)
  {
    var s := x + "\n" + t;
    if x == "" {
      assert s[1..] == t;
    } else {
      assert s[1..] == x[1..] + "\n" + t;
      SplitAtBreak(x[1..], t);
      assert [s[0]] + x[1..] == x;
    }
  }

  /** Splitting at a line break splits the pieces of the two sides. */
  lemma {:induction false} SplitAppend(x: string, t: string)
    ensures Split(x + "\n" + t) == Split(x) + Split(t)
  {
    var s := x + "\n" + t;
    if x == "" {
      assert s[1..] == t;
    } else {
      assert s[1..] == x[1..] + "\n" + t;
      SplitAppend(x[1..], t);
    }
  }

  /** A text not ending in a line break has a non-empty last line ending in the same character. */
  lemma {:induction false} SplitLastChar(s: string)
    requires |s| > 0 && s[|s| - 1] != '\n'
    ensures |Last(Split(s))| > 0 && Last(Last(Split(s))) == s[|s| - 1]
  {
    if |s| == 1 {
      assert s[1..] == "";
    } else {
      var rest := Split(s[1..]);
      SplitLastChar(s[1..]);
      assert s[1..][|s[1..]| - 1] == s[|s| - 1];
      if s[0] != '\n' {
        var r := [[s[0]] + rest[0]] + rest[1..];
        if |rest| == 1 {
          assert Last(r) == [s[0]] + rest[0];
        } else {
          assert Last(r) == Last(rest);
        }
      }
    }
  }

  function Last<T>(s: seq<T>): T
    requires |s| > 0
  {
    s[|s| - 1]
  }

  function DropLast<T>(s: seq<T>): seq<T>
    requires |s| > 0
  {
    s[..|s| - 1]
  }

  /** `s[-1] += xs` on a list of lists. */
  function AppendLast<T>(s: seq<seq<T>>, xs: seq<T>): (r: seq<seq<T>>)
    requires |s| > 0
    ensures |r| == |s| && DropLast(r) == DropLast(s) && Last(r) == Last(s) + xs
  {
    DropLast(s) + [Last(s) + xs]
  }

  lemma PrefixOfPrefix<T>(s: seq<T>, m: nat, n: nat)
    requires n <= m <= |s|
    ensures s[..m][..n] == s[..n]
  {
  }

  lemma AppendLastTwice<T>(s: seq<seq<T>>, xs: seq<T>, ys: seq<T>)
    requires |s| > 0
    ensures AppendLast(AppendLast(s, xs), ys) == AppendLast(s, xs + ys)
  {
    assert Last(s) + xs + ys == Last(s) + (xs + ys);
  }

  lemma CountNlAppend(a: string, b: string)
    ensures CountNl(a + b) == CountNl(a) + CountNl(b)
  {
    assert multiset(a + b) == multiset(a) + multiset(b);
  }

  /** `d` occurs in `s` starting at offset `i`. */
  predicate OccursAt(s: string, d: string, i: nat) {
    i + |d| <= |s| && s[i..i + |d|] == d
  }

  predicate Contains(s: string, d: string) {
    exists i :: 0 <= i <= |s| && OccursAt(s, d, i)
  }

  /** `s.find(d, k)`: the least offset from `k` on where `d` occurs, or -1. */
  function FindFrom(s: string, d: string, k: nat): (r: int)
    requires k <= |s|
    ensures r == -1 || (k <= r <= |s| && OccursAt(s, d, r))
    ensures r == -1 ==> forall i :: k <= i <= |s| ==> !OccursAt(s, d, i)
    ensures r != -1 ==> forall i :: k <= i < r ==> !OccursAt(s, d, i)
    decreases |s| - k
  {
    if OccursAt(s, d, k) then k
    else if k == |s| then -1
    else FindFrom(s, d, k + 1)
  }

  /** `s.find(d)` */
  function Find(s: string, d: string): (r: int)
    ensures r == -1 <==> !Contains(s, d)
    ensures r != -1 ==> 0 <= r && OccursAt(s, d, r) && forall i :: 0 <= i < r ==> !OccursAt(s, d, i)
  {
    FindFrom(s, d, 0)
  }

  /** Element `k` of a list occurs in the list's concatenation, at the length of what precedes it. */
  lemma ConcatFactor(ss: seq<string>, k: nat)
    requires k < |ss|
    ensures OccursAt(Concat(ss), ss[k], |Concat(ss[..k])|)
  {
    ConcatAt(ss, k);
    var c := Concat(ss);
    var p := |Concat(ss[..k])|;
    assert c[p..p + |ss[k]|] == ss[k];
  }

  function Digit(d: nat): char
    requires d < 10
  {
    "0123456789"[d]
  }

  /** `'%s' % n` for a non-negative integer `n`: its decimal digits. */
  function NatToString(n: nat): (r: string)
    ensures |r| > 0 && forall i :: 0 <= i < |r| ==> '0' <= r[i] <= '9'
  {
    if n < 10 then [Digit(n)] else NatToString(n / 10) + [Digit(n % 10)]
  }

  /** The number a string of decimal digits denotes. */
  function DecimalValue(s: string): nat
    requires forall i :: 0 <= i < |s| ==> '0' <= s[i] <= '9'
  {
    if s == [] then 0 else 10 * DecimalValue(DropLast(s)) + (Last(s) as int - '0' as int)
  }

  /** The digits denote `n` back, with no leading zero except for `0` itself. */
  lemma {:induction false} NatToStringValue(n: nat)
    ensures DecimalValue(NatToString(n)) == n
    ensures NatToString(n)[0] == '0' ==> n == 0
  {
    var r := NatToString(n);
    if n >= 10 {
      NatToStringValue(n / 10);
      assert DropLast(r) == NatToString(n / 10) && Last(r) == Digit(n % 10);
      assert Digit(n % 10) as int - '0' as int == n % 10;
      assert r[0] == NatToString(n / 10)[0];
    }
  }
}
