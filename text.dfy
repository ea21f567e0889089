/** The few Python string operations the loaders use, on `seq<char>`:
    `str.isspace`, `strip`, `split()`, `split(sep)`, `split(sep, 1)`,
    `sep.join`, `splitlines`, `lower` on ASCII letters, `int()` on a token
    and `str()` of an int. */
module Text {
  import opened Util

  /** Python's `float(s)` on a token, left abstract: None where it raises ValueError. */
  type NumFn = string -> Option<real>

  /** `c.isspace()`. */
  predicate IsSpace(c: char) {
    c == ' ' || '\t' <= c <= '\r' || '\U{1c}' <= c <= '\U{1f}' || c == '\U{85}' || c == '\U{a0}' ||
    c == '\U{1680}' || '\U{2000}' <= c <= '\U{200a}' || c == '\U{2028}' || c == '\U{2029}' ||
    c == '\U{202f}' || c == '\U{205f}' || c == '\U{3000}'
  }

  /** The line boundaries of `str.splitlines`. */
  predicate IsLineBreak(c: char) {
    '\n' <= c <= '\r' || '\U{1c}' <= c <= '\U{1e}' || c == '\U{85}' || c == '\U{2028}' || c == '\U{2029}'
  }

  lemma LineBreakIsSpace(c: char)
    ensures IsLineBreak(c) ==> IsSpace(c)
  {
  }

  predicate NoSpace(s: string) {
    forall i :: 0 <= i < |s| ==> !IsSpace(s[i])
  }

  predicate AllSpace(s: string) {
    forall i :: 0 <= i < |s| ==> IsSpace(s[i])
  }

  predicate NoLineBreak(s: string) {
    forall i :: 0 <= i < |s| ==> !IsLineBreak(s[i])
  }

  // ----------------------------------------------------------- strip

  function LStrip(s: string): (r: string)
    ensures |r| <= |s| && r == s[|s| - |r|..] && AllSpace(s[..|s| - |r|])
    ensures r == [] || !IsSpace(r[0])
    decreases |s|
  {
    if s != [] && IsSpace(s[0]) then LStrip(s[1..]) else s
  }

  function RStrip(s: string): (r: string)
    ensures |r| <= |s| && r == s[..|r|] && AllSpace(s[|r|..])
    ensures r == [] || !IsSpace(r[|r| - 1])
    decreases |s|
  {
    if s != [] && IsSpace(s[|s| - 1]) then RStrip(s[..|s| - 1]) else s
  }

  /** `s.strip()`: s without its leading and trailing whitespace. */
  function Strip(s: string): string {
    RStrip(LStrip(s))
  }

  /** Strip removes exactly a whitespace prefix and a whitespace suffix,
      and leaves no whitespace at either end. */
  lemma StripSpec(s: string)
    ensures var r := Strip(s); r == [] || (!IsSpace(r[0]) && !IsSpace(r[|r| - 1]))
    ensures var r := Strip(s);
      exists a, b :: 0 <= a <= b <= |s| && r == s[a..b] && AllSpace(s[..a]) && AllSpace(s[b..])
  {
    var l := LStrip(s);
    var r := RStrip(l);
    var a := |s| - |l|;
    var b := a + |r|;
    assert r == s[a..b];
    assert s[b..] == l[|r|..];
  }

  /** A string that neither starts nor ends with whitespace strips to itself. */
  lemma StripTrimmed(s: string)
    requires s == [] || (!IsSpace(s[0]) && !IsSpace(s[|s| - 1]))
    ensures Strip(s) == s
  {
  }

  /** Whitespace around a string is exactly what strip removes. */
  lemma StripPadded(pre: string, s: string, post: string)
    requires AllSpace(pre) && AllSpace(post) && (s == [] || (!IsSpace(s[0]) && !IsSpace(s[|s| - 1])))
    ensures Strip(pre + s + post) == s
  {
    if s == [] {
      assert pre + s + post == pre + post;
      StripAllSpace(pre + post);
    } else {
      assert pre + s + post == pre + (s + post);
      LStripPadded(pre, s + post);
      RStripPadded(s, post);
    }
  }

  lemma StripAllSpace(s: string)
    requires AllSpace(s)
    ensures Strip(s) == []
  {
    assert LStrip(s) == [];
  }

  lemma {:induction false} LStripPadded(pre: string, t: string)
    requires AllSpace(pre) && (t == [] || !IsSpace(t[0]))
    ensures LStrip(pre + t) == t
    decreases |pre|
  {
    if pre != [] {
      assert (pre + t)[1..] == pre[1..] + t;
      LStripPadded(pre[1..], t);
    } else {
      assert pre + t == t;
    }
  }

  lemma {:induction false} RStripPadded(s: string, post: string)
    requires AllSpace(post) && (s == [] || !IsSpace(s[|s| - 1]))
    ensures RStrip(s + post) == s
    decreases |post|
  {
    if post != [] {
      assert (s + post)[..|s + post| - 1] == s + post[..|post| - 1];
      RStripPadded(s, post[..|post| - 1]);
    } else {
      assert s + post == s;
    }
  }

  // --------------------------------------------------- split and join

  /** The length of the leading run of non-space characters. */
  function TokenLen(s: string): (n: nat)
    ensures n <= |s| && NoSpace(s[..n]) && (n < |s| ==> IsSpace(s[n]))
    decreases |s|
  {
    if s == [] || IsSpace(s[0]) then 0 else 1 + TokenLen(s[1..])
  }

  /** `s.split()`: the maximal runs of non-whitespace. */
  function Split(s: string): (r: seq<string>)
    ensures forall i :: 0 <= i < |r| ==> r[i] != [] && NoSpace(r[i])
    decreases |s|
  {
    if s == [] then []
    else if IsSpace(s[0]) then Split(s[1..])
    else
      var n := TokenLen(s);
      [s[..n]] + Split(s[n..])
  }

  /** `sep.join(xs)`. */
  function Join(sep: string, xs: seq<string>): string
    decreases |xs|
  {
    if xs == [] then [] else if |xs| == 1 then xs[0] else xs[0] + sep + Join(sep, xs[1..])
  }

  predicate Tokens(xs: seq<string>) {
    forall i :: 0 <= i < |xs| ==> xs[i] != [] && NoSpace(xs[i])
  }

  lemma TokenLenOf(t: string, rest: string)
    requires t != [] && NoSpace(t) && (rest == [] || IsSpace(rest[0]))
    ensures TokenLen(t + rest) == |t|
    decreases |t|
  {
    if |t| > 1 {
      assert (t + rest)[1..] == t[1..] + rest;
      TokenLenOf(t[1..], rest);
    } else {
      assert (t + rest)[1..] == rest;
    }
  }

  lemma {:induction false} SplitLeadingSpace(sp: string, s: string)
    requires AllSpace(sp)
    ensures Split(sp + s) == Split(s)
    decreases |sp|
  {
    if sp != [] {
      assert (sp + s)[1..] == sp[1..] + s;
      SplitLeadingSpace(sp[1..], s);
    } else {
      assert sp + s == s;
    }
  }

  lemma SplitToken(t: string, rest: string)
    requires t != [] && NoSpace(t) && (rest == [] || IsSpace(rest[0]))
    ensures Split(t + rest) == [t] + Split(rest)
  {
    TokenLenOf(t, rest);
    assert (t + rest)[..|t|] == t && (t + rest)[|t|..] == rest;
  }

  /** `s.split()` undoes `" ".join` of tokens, whatever whitespace follows. */
  lemma {:induction false} SplitJoin(xs: seq<string>, pad: string)
    requires Tokens(xs) && AllSpace(pad)
    ensures Split(Join(" ", xs) + pad) == xs
    decreases |xs|
  {
    if xs == [] {
      SplitAllSpace(pad);
      assert [] + pad == pad;
    } else if |xs| == 1 {
      SplitToken(xs[0], pad);
      SplitAllSpace(pad);
    } else {
      var rest := Join(" ", xs[1..]) + pad;
      assert Join(" ", xs) + pad == xs[0] + (" " + rest);
      SplitToken(xs[0], " " + rest);
      assert (" " + rest)[1..] == rest;
      SplitJoin(xs[1..], pad);
      assert xs == [xs[0]] + xs[1..];
    }
  }

  /** Whitespace splits into nothing. */
  lemma SplitAllSpace(s: string)
    requires AllSpace(s)
    ensures Split(s) == []
  {
    SplitLeadingSpace(s, []);
    assert s + [] == s;
  }

  lemma {:induction false} JoinNoSpace(xs: seq<string>)
    requires Tokens(xs)
    ensures var j := Join(" ", xs); j == [] || (!IsSpace(j[0]) && !IsSpace(j[|j| - 1]))
    ensures xs != [] ==> Join(" ", xs) != []
    decreases |xs|
  {
    if |xs| > 1 {
      JoinNoSpace(xs[1..]);
    }
  }

  /** The first index of c in s. */
  function IndexOf(s: string, c: char): (i: nat)
    requires c in s
    ensures i < |s| && s[i] == c && c !in s[..i]
  {
    if s[0] == c then 0 else 1 + IndexOf(s[1..], c)
  }

  /** `s.split(c, 1)` when c occurs in s, as the pair on either side of its first occurrence. */
  function SplitOnce(s: string, c: char): (r: (string, string))
    requires c in s
    ensures s == r.0 + [c] + r.1 && c !in r.0
  {
    var i := IndexOf(s, c);
    (s[..i], s[i + 1..])
  }

  /** `s.split(c)`: every field between occurrences of c, empty ones
      included. */
  function SplitOn(s: string, c: char): (r: seq<string>)
    ensures |r| >= 1 && forall i :: 0 <= i < |r| ==> c !in r[i]
    decreases |s|
  {
    if c !in s then [s]
    else
      var (a, b) := SplitOnce(s, c);
      [a] + SplitOn(b, c)
  }

  /** `c.join(s.split(c)) == s`. */
  lemma {:induction false} JoinSplitOn(s: string, c: char)
    ensures Join([c], SplitOn(s, c)) == s
    decreases |s|
  {
    if c in s {
      var (a, b) := SplitOnce(s, c);
      JoinSplitOn(b, c);
      assert SplitOn(s, c) == [a] + SplitOn(b, c);
      assert ([a] + SplitOn(b, c))[1..] == SplitOn(b, c);
    }
  }

  // ------------------------------------------------------ line breaks

  /** The length of the text before its first line break. */
  function LineLen(t: string): (n: nat)
    ensures n <= |t| && NoLineBreak(t[..n]) && (n < |t| ==> IsLineBreak(t[n]))
    decreases |t|
  {
    if t == [] || IsLineBreak(t[0]) then 0 else 1 + LineLen(t[1..])
  }

  /** `text.splitlines()`: "\r\n" counts as one boundary and a final
      boundary opens no further line. */
  function SplitLines(t: string): (r: seq<string>)
    ensures forall i :: 0 <= i < |r| ==> NoLineBreak(r[i])
    decreases |t|
  {
    if t == [] then []
    else
      var n := LineLen(t);
      if n == |t| then [t]
      else
        var skip := if t[n] == '\r' && n + 1 < |t| && t[n + 1] == '\n' then 2 else 1;
        [t[..n]] + SplitLines(t[n + skip..])
  }

  lemma LineLenOf(x: string, rest: string)
    requires NoLineBreak(x) && (rest == [] || IsLineBreak(rest[0]))
    ensures LineLen(x + rest) == |x|
    decreases |x|
  {
    if x != [] {
      assert (x + rest)[1..] == x[1..] + rest;
      LineLenOf(x[1..], rest);
    } else {
      assert x + rest == rest;
    }
  }

  /** A line followed by "\n" is split off whole. */
  lemma SplitLinesCons(x: string, rest: string)
    requires NoLineBreak(x)
    ensures SplitLines(x + "\n" + rest) == [x] + SplitLines(rest)
  {
    var t := x + "\n" + rest;
    assert t == x + ("\n" + rest);
    LineLenOf(x, "\n" + rest);
    assert t[..|x|] == x && t[|x|] == '\n';
    assert t[|x| + 1..] == rest;
  }

  /** Reading back `"\n".join(out)` line by line gives out, less one final
      empty string: for want of a final newline Python drops it. */
  lemma {:induction false} SplitLinesJoin(out: seq<string>)
    requires forall i :: 0 <= i < |out| ==> NoLineBreak(out[i])
    ensures SplitLines(Join("\n", out)) == if out != [] && out[|out| - 1] == [] then out[..|out| - 1] else out
    decreases |out|
  {
    if |out| == 1 {
      if out[0] != [] {
        LineLenOf(out[0], []);
        assert out[0] + [] == out[0];
      }
    } else if |out| > 1 {
      var x := out[0];
      var rest := Join("\n", out[1..]);
      assert Join("\n", out) == x + "\n" + rest;
      SplitLinesCons(x, rest);
      SplitLinesJoin(out[1..]);
      var tail := out[1..];
      if tail[|tail| - 1] == [] {
        assert out[..|out| - 1] == [x] + tail[..|tail| - 1];
      } else {
        assert out == [x] + tail;
      }
    }
  }

  // ----------------------------------------------------- lower case

  /** `s.lower()` on ASCII letters; other characters are left alone. */
  function LowerChar(c: char): char {
    if 'A' <= c <= 'Z' then (c as int + 32) as char else c
  }

  function LowerAscii(s: string): (r: string)
    ensures |r| == |s|
    decreases |s|
  {
    if s == [] then [] else [LowerChar(s[0])] + LowerAscii(s[1..])
  }

  /** Lowering works character by character. */
  lemma {:induction false} LowerAsciiAt(s: string, i: int)
    requires 0 <= i < |s|
    ensures LowerAscii(s)[i] == LowerChar(s[i])
    decreases |s|
  {
    if i > 0 {
      LowerAsciiAt(s[1..], i - 1);
    }
  }

  /** A string with no upper-case ASCII letter is its own lower case. */
  lemma {:induction false} LowerNoUpper(s: string)
    requires forall i :: 0 <= i < |s| ==> !('A' <= s[i] <= 'Z')
    ensures LowerAscii(s) == s
    decreases |s|
  {
    if s != [] {
      LowerNoUpper(s[1..]);
      assert [s[0]] + s[1..] == s;
    }
  }

  // ---------------------------------------------------------- numbers

  predicate IsDigit(c: char) { '0' <= c <= '9' }

  function DigitChar(d: nat): char
    requires d < 10
  {
    ('0' as int + d) as char
  }

  /** The value of a run of decimal digits. */
  function DigitsValue(s: string): nat
    requires forall i :: 0 <= i < |s| ==> IsDigit(s[i])
    decreases |s|
  {
    if s == [] then 0
    else
      assert IsDigit(s[|s| - 1]);
      DigitsValue(s[..|s| - 1]) * 10 + (s[|s| - 1] as int - '0' as int)
  }

  /** `str(n)` of a non-negative int: no leading zeros. */
  function NatToStr(n: nat): (r: string)
    ensures r != [] && forall i :: 0 <= i < |r| ==> IsDigit(r[i])
    ensures DigitsValue(r) == n
    decreases n
  {
    if n < 10 then [DigitChar(n)] else NatToStr(n / 10) + [DigitChar(n % 10)]
  }

  /** `str(i)`. */
  function IntToStr(i: int): (r: string)
    ensures r != []
  {
    if i < 0 then "-" + NatToStr(-i) else NatToStr(i)
  }

  /** `str(i)` is one token: no whitespace, no line break, no `#`. */
  lemma IntToStrToken(i: int)
    ensures var r := IntToStr(i); NoSpace(r) && NoLineBreak(r) && '#' !in r
  {
    var r := IntToStr(i);
    var d := if i < 0 then NatToStr(-i) else NatToStr(i);
    assert forall k :: 0 <= k < |d| ==> IsDigit(d[k]);
    assert i < 0 ==> r == "-" + d;
    assert i >= 0 ==> r == d;
  }

  /** `int(s)` on a token with no whitespace: an optional sign, then one or
      more decimal digits; anything else raises ValueError. */
  function ParseInt(s: string): (r: Option<int>)
    ensures r.Some? ==> s != []
  {
    if s == [] then None
    else
      var neg := s[0] == '-';
      var body := if s[0] == '-' || s[0] == '+' then s[1..] else s;
      if body == [] || exists i :: 0 <= i < |body| && !IsDigit(body[i]) then None
      else
        var v: int := DigitsValue(body);
        Some(if neg then -v else v)
  }

  /** `int(str(i)) == i`. */
  lemma ParseIntToStr(i: int)
    ensures ParseInt(IntToStr(i)) == Some(i)
  {
    if i < 0 {
      assert IntToStr(i)[1..] == NatToStr(-i);
    }
  }
}
