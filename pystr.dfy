/** The few Python builtins and `str` operations the modelled code relies on, over `seq<char>`
    (Dafny's `char` is a Unicode scalar value, as Python's code points are). */
module PyStr {

  /** `min(a, b)` */
  function Min(a: int, b: int): int { if a < b then a else b }

  /** `max(a, b)` */
  function Max(a: int, b: int): int { if a < b then b else a }

  /** The characters CPython's `str.split()` and `str.strip()` treat as whitespace. */
  predicate IsSpace(c: char) {
    || c == ' ' || c == '\t' || c == '\n' || c == '\r' || c == '\U{B}' || c == '\U{C}'
    || ('\U{1C}' <= c <= '\U{1F}') || c == '\U{85}' || c == '\U{A0}' || c == '\U{1680}'
    || ('\U{2000}' <= c <= '\U{200A}') || c == '\U{2028}' || c == '\U{2029}'
    || c == '\U{202F}' || c == '\U{205F}' || c == '\U{3000}'
  }

  /** Letters as `str.isalpha()` sees them, restricted to ASCII and Latin-1. */
  predicate IsAlpha(c: char) {
    || ('a' <= c <= 'z') || ('A' <= c <= 'Z')
    || c == '\U{AA}' || c == '\U{B5}' || c == '\U{BA}'
    || ('\U{C0}' <= c <= '\U{D6}') || ('\U{D8}' <= c <= '\U{F6}') || ('\U{F8}' <= c <= '\U{FF}')
  }

  /** `s.startswith(p)` */
  predicate StartsWith(s: string, p: string) {
    |p| <= |s| && s[..|p|] == p
  }

  /** `s.endswith(p)` */
  predicate EndsWith(s: string, p: string) {
    |p| <= |s| && s[|s| - |p|..] == p
  }

  /** A token of `str.split()`: non-empty and free of whitespace. */
  predicate IsWord(w: string) {
    w != [] && forall i :: 0 <= i < |w| ==> !IsSpace(w[i])
  }

  /** Length of the longest whitespace-free prefix of `s`. */
  function WordLen(s: string): (n: nat)
    ensures n <= |s|
    ensures forall i :: 0 <= i < n ==> !IsSpace(s[i])
    ensures n == |s| || IsSpace(s[n])
  {
    if s == [] || IsSpace(s[0]) then 0 else 1 + WordLen(s[1..])
  }

  /** `s.split()`: the maximal runs of non-whitespace characters, in order. */
  function Split(s: string): (r: seq<string>)
    ensures forall k :: 0 <= k < |r| ==> IsWord(r[k])
    decreases |s|
  {
    if s == [] then []
    else if IsSpace(s[0]) then Split(s[1..])
    else
      var n := WordLen(s);
      [s[..n]] + Split(s[n..])
  }

  /** `sep.join(xs)` */
  function Join(sep: string, xs: seq<string>): string {
    if xs == [] then ""
    else if |xs| == 1 then xs[0]
    else xs[0] + sep + Join(sep, xs[1..])
  }

  /** `s.lstrip()` */
  function LStrip(s: string): (r: string)
    ensures r == [] || !IsSpace(r[0])
    ensures |r| <= |s| && r == s[|s| - |r|..]
  {
    if s != [] && IsSpace(s[0]) then LStrip(s[1..]) else s
  }

  /** `s.rstrip()` */
  function RStrip(s: string): (r: string)
    ensures r == [] || !IsSpace(r[|r| - 1])
    ensures |r| <= |s| && r == s[..|r|]
  {
    if s != [] && IsSpace(s[|s| - 1]) then RStrip(s[..|s| - 1]) else s
  }

  /** `s.strip()` */
  function Strip(s: string): string {
    RStrip(LStrip(s))
  }

  /** True when `s` has a non-whitespace character, i.e. `len(s.strip()) > 0`. */
  predicate HasText(s: string) {
    exists i :: 0 <= i < |s| && !IsSpace(s[i])
  }

  /** `sum(c.isalpha() for c in s)` */
  function AlphaCount(s: string): (n: nat)
    ensures n <= |s|
  {
    if s == [] then 0 else (if IsAlpha(s[0]) then 1 else 0) + AlphaCount(s[1..])
  }

  /** `str(n)` for a natural number. */
  function NatToString(n: nat): (r: string)
    ensures r != []
  {
    var d := "0123456789"[n % 10];
    if n < 10 then [d] else NatToString(n / 10) + [d]
  }

  /** `str(n)` for any integer. */
  function IntToString(n: int): (r: string)
    ensures r != []
  {
    if n < 0 then "-" + NatToString(-n) else NatToString(n)
  }

  /** `os.path.join(a, b)` for a relative `b`: a separator is added unless `a` is empty or
      already ends with one. */
  function PathJoin(a: string, b: string): (r: string)
    ensures EndsWith(r, b) && StartsWith(r, a)
  {
    if a == [] || a[|a| - 1] == '/' then a + b else a + "/" + b
  }

  /** `s.readlines()` on the text `s`: split after every newline, newlines kept. */
  function ReadLines(s: string): (r: seq<string>)
    decreases |s|
  {
    if s == [] then []
    else
      var n := LineLen(s);
      [s[..n]] + ReadLines(s[n..])
  }

  /** Length of the first line of a non-empty `s`, its newline included. */
  function LineLen(s: string): (n: nat)
    requires s != []
    ensures 1 <= n <= |s|
    ensures forall i :: 0 <= i < n - 1 ==> s[i] != '\n'
    ensures n < |s| ==> s[n - 1] == '\n'
  {
    if s[0] == '\n' || |s| == 1 then 1 else 1 + LineLen(s[1..])
  }

  /** Each string followed by a newline: the text `f.write(x + "\n")` leaves for each `x`. */
  function Lines(xs: seq<string>): string
    decreases |xs|
  {
    if xs == [] then "" else Lines(xs[..|xs| - 1]) + xs[|xs| - 1] + "\n"
  }

  /** No line break anywhere in `s`: neither '\n' nor '\r', both of which end a line when a
      file opened in text mode is read back with universal newlines. */
  predicate NoNewline(s: string) {
    forall i :: 0 <= i < |s| ==> s[i] != '\n' && s[i] != '\r'
  }

  /** Where `xs[i]` starts in `sep.join(xs)`: after each earlier element and its separator. */
  function JoinOffset(sep: string, xs: seq<string>, i: nat): nat
    requires i <= |xs|
  {
    if i == 0 then 0 else |xs[0]| + |sep| + JoinOffset(sep, xs[1..], i - 1)
  }

  // ---------------------------------------------------------------------
  // Lemmas

  lemma {:induction false} WordLenOfWord(w: string, t: string)
    requires IsWord(w)
    requires t == [] || IsSpace(t[0])
    ensures WordLen(w + t) == |w|
    decreases |w|
  {
    var s := w + t;
    assert s[0] == w[0];
    if |w| == 1 {
      assert s[1..] == t;
    } else {
      assert s[1..] == w[1..] + t;
      WordLenOfWord(w[1..], t);
    }
  }

  /** Splitting words joined by single spaces gives the words back. */
  lemma {:induction false} SplitJoin(ws: seq<string>)
    requires forall k :: 0 <= k < |ws| ==> IsWord(ws[k])
    ensures Split(Join(" ", ws)) == ws
    decreases |ws|
  {
    if ws == [] {
    } else if |ws| == 1 {
      var w := ws[0];
      WordLenOfWord(w, []);
      assert w + [] == w;
      assert w[|w|..] == [];
    } else {
      var w, rest := ws[0], Join(" ", ws[1..]);
      var s := w + " " + rest;
      assert s == w + (" " + rest);
      WordLenOfWord(w, " " + rest);
      assert s[..|w|] == w;
      assert s[|w|..] == " " + rest;
      assert (" " + rest)[1..] == rest;
      SplitJoin(ws[1..]);
      assert Split(s) == [w] + Split(rest);
    }
  }

  /** `len(s.strip()) > 0` exactly when `s` has a non-whitespace character. */
  lemma {:induction false} StripEmptyIffBlank(s: string)
    ensures (Strip(s) != []) <==> HasText(s)
  {
    LStripKeepsText(s);
    RStripKeepsText(LStrip(s));
  }

  lemma {:induction false} LStripKeepsText(s: string)
    ensures HasText(LStrip(s)) <==> HasText(s)
    decreases |s|
  {
    if s != [] && IsSpace(s[0]) {
      LStripKeepsText(s[1..]);
      HasTextTail(s);
    }
  }

  lemma {:induction false} RStripKeepsText(s: string)
    ensures (RStrip(s) != []) <==> HasText(s)
    decreases |s|
  {
    if s != [] && IsSpace(s[|s| - 1]) {
      var p := s[..|s| - 1];
      RStripKeepsText(p);
      if HasText(s) {
        var i :| 0 <= i < |s| && !IsSpace(s[i]);
        assert i < |s| - 1 && p[i] == s[i];
      }
      if HasText(p) {
        var i :| 0 <= i < |p| && !IsSpace(p[i]);
        assert s[i] == p[i];
      }
    } else if s != [] {
      assert !IsSpace(s[|s| - 1]);
    }
  }

  /** Lines of a concatenation split where the first part ends with a newline. */
  lemma {:induction false} ReadLinesAppend(a: string, b: string)
    requires a == [] || a[|a| - 1] == '\n'
    ensures ReadLines(a + b) == ReadLines(a) + ReadLines(b)
    decreases |a|
  {
    if a == [] {
      assert a + b == b;
    } else {
      var s := a + b;
      var n := LineLen(a);
      LineLenPrefix(a, b);
      assert s[..n] == a[..n];
      assert s[n..] == a[n..] + b;
      var a' := a[n..];
      assert a' == [] || a'[|a'| - 1] == '\n';
      ReadLinesAppend(a', b);
    }
  }

  lemma {:induction false} LineLenPrefix(a: string, b: string)
    requires a != []
    requires a[|a| - 1] == '\n'
    ensures LineLen(a + b) == LineLen(a)
    decreases |a|
  {
    var s := a + b;
    assert s[0] == a[0];
    if a[0] == '\n' {
    } else {
      assert |a| > 1;
      assert s[1..] == a[1..] + b;
      LineLenPrefix(a[1..], b);
    }
  }

  /** A line without a newline, followed by one, reads back as that single line. */
  lemma {:induction false} ReadLinesOfLine(f: string)
    requires NoNewline(f)
    ensures ReadLines(f + "\n") == [f + "\n"]
  {
    var s := f + "\n";
    LineLenOfLine(f);
    assert s[..|s|] == s;
    assert s[|s|..] == [];
  }

  lemma {:induction false} LineLenOfLine(f: string)
    requires NoNewline(f)
    ensures LineLen(f + "\n") == |f| + 1
    decreases |f|
  {
    var s := f + "\n";
    if f != [] {
      assert s[0] == f[0];
      assert s[1..] == f[1..] + "\n";
      LineLenOfLine(f[1..]);
    }
  }

  /** Stripping ignores one more trailing whitespace character. */
  lemma StripSnocSpace(f: string, c: char)
    requires IsSpace(c)
    ensures Strip(f + [c]) == Strip(f)
  {
    LStripSnocSpace(f, c);
    if HasText(f) {
      var l := LStrip(f);
      assert (l + [c])[..|l|] == l;
    } else {
      StripEmptyIffBlank(f);
    }
  }

  lemma {:induction false} LStripSnocSpace(f: string, c: char)
    requires IsSpace(c)
    ensures HasText(f) ==> LStrip(f + [c]) == LStrip(f) + [c]
    ensures !HasText(f) ==> LStrip(f + [c]) == []
    decreases |f|
  {
    if f == [] {
      assert LStrip([c]) == LStrip([c][1..]);
    } else if IsSpace(f[0]) {
      assert (f + [c])[1..] == f[1..] + [c];
      LStripSnocSpace(f[1..], c);
      HasTextTail(f);
    } else {
      assert HasText(f) by { assert !IsSpace(f[0]); }
    }
  }

  lemma HasTextTail(f: string)
    requires f != [] && IsSpace(f[0])
    ensures HasText(f) <==> HasText(f[1..])
  {
    if HasText(f) {
      var i :| 0 <= i < |f| && !IsSpace(f[i]);
      assert f[1..][i - 1] == f[i];
    }
    if HasText(f[1..]) {
      var i :| 0 <= i < |f[1..]| && !IsSpace(f[1..][i]);
      assert f[i + 1] == f[1..][i];
    }
  }

  lemma LinesSnoc(xs: seq<string>, i: nat)
    requires i < |xs|
    ensures Lines(xs[..i + 1]) == Lines(xs[..i]) + xs[i] + "\n"
  {
    assert xs[..i + 1][..i] == xs[..i];
  }

  lemma {:induction false} LinesAppend(a: seq<string>, b: seq<string>)
    ensures Lines(a + b) == Lines(a) + Lines(b)
    decreases |b|
  {
    if b == [] {
      assert a + b == a;
    } else {
      var n := |b| - 1;
      assert (a + b)[..|a + b| - 1] == a + b[..n];
      LinesAppend(a, b[..n]);
    }
  }

  /** The lines around line `c`. */
  lemma LinesAt(xs: seq<string>, c: nat)
    requires c < |xs|
    ensures Lines(xs) == Lines(xs[..c]) + (xs[c] + "\n") + Lines(xs[c + 1..])
  {
    assert xs == xs[..c + 1] + xs[c + 1..];
    LinesAppend(xs[..c + 1], xs[c + 1..]);
    LinesSnoc(xs, c);
  }

  /** In `sep.join(xs)`, element `i` sits at its offset; a separator follows it unless it is the
      last element, which ends the text; and the next element starts right after that separator. */
  lemma {:induction false} JoinAt(sep: string, xs: seq<string>, i: nat)
    requires i < |xs|
    ensures var t, o := Join(sep, xs), JoinOffset(sep, xs, i);
      && o + |xs[i]| <= |t| && t[o..o + |xs[i]|] == xs[i]
      && (i + 1 < |xs| ==>
            && o + |xs[i]| + |sep| <= |t| && t[o + |xs[i]|..o + |xs[i]| + |sep|] == sep
            && JoinOffset(sep, xs, i + 1) == o + |xs[i]| + |sep|)
      && (i + 1 == |xs| ==> o + |xs[i]| == |t|)
    decreases i
  {
    if i == 0 {
      if |xs| > 1 {
        SliceAfter(xs[0], sep, Join(sep, xs[1..]));
      }
    } else {
      var rest := xs[1..];
      var h := xs[0] + sep;
      var x := xs[i];
      JoinAt(sep, rest, i - 1);
      assert rest[i - 1] == x;
      var r := Join(sep, rest);
      assert Join(sep, xs) == h + r;
      var o := JoinOffset(sep, rest, i - 1);
      assert JoinOffset(sep, xs, i) == |h| + o;
      SliceShift(h, r, o, o + |x|);
      if i + 1 < |xs| {
        SliceShift(h, r, o + |x|, o + |x| + |sep|);
      }
    }
  }

  /** `JoinAt` for a join that follows a heading `h`. */
  lemma JoinAfter(h: string, sep: string, xs: seq<string>, i: nat)
    requires i < |xs|
    ensures var t, o, x := h + Join(sep, xs), |h| + JoinOffset(sep, xs, i), xs[i];
      && |h| <= o && o + |x| <= |t| && t[o..o + |x|] == x
      && (i + 1 < |xs| ==> o + |x| + |sep| <= |t| && t[o + |x|..o + |x| + |sep|] == sep)
      && (forall j :: i < j <= |xs| ==> o + |x| + |sep| <= |h| + JoinOffset(sep, xs, j))
      && (i + 1 == |xs| ==> o + |x| == |t|)
  {
    var j := Join(sep, xs);
    var o := JoinOffset(sep, xs, i);
    JoinAt(sep, xs, i);
    SliceShift(h, j, o, o + |xs[i]|);
    if i + 1 < |xs| {
      SliceShift(h, j, o + |xs[i]|, o + |xs[i]| + |sep|);
    }
    forall k | i < k <= |xs|
      ensures o + |xs[i]| + |sep| <= JoinOffset(sep, xs, k)
    {
      JoinOffsetGrows(sep, xs, i, k);
    }
  }

  lemma SliceAfter(a: string, b: string, c: string)
    ensures (a + b + c)[..|a|] == a && (a + b + c)[|a|..|a| + |b|] == b
  {
  }

  lemma SliceShift(h: string, r: string, lo: nat, hi: nat)
    requires lo <= hi <= |r|
    ensures (h + r)[|h| + lo..|h| + hi] == r[lo..hi]
  {
  }

  /** Later elements of a join start further in. */
  lemma {:induction false} JoinOffsetGrows(sep: string, xs: seq<string>, i: nat, j: nat)
    requires i < j <= |xs|
    ensures JoinOffset(sep, xs, i) + |xs[i]| + |sep| <= JoinOffset(sep, xs, j)
    decreases i
  {
    if i == 0 {
      assert JoinOffset(sep, xs, j) == |xs[0]| + |sep| + JoinOffset(sep, xs[1..], j - 1);
    } else {
      JoinOffsetGrows(sep, xs[1..], i - 1, j - 1);
    }
  }
}
