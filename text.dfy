/**
 * The Go standard-library string, path and line-scanning functions that the
 * core calls: strings.TrimSpace, strings.ReplaceAll, bytes.TrimSuffix,
 * bufio.ScanLines, filepath.Ext, filepath.Join and fmt's `%d` / `%02d`.
 * Strings are sequences of runes.
 */
module Text {

  // ---------------------------------------------------------------------------
  // Whitespace trimming (strings.TrimSpace)
  // ---------------------------------------------------------------------------

  /** unicode.IsSpace: the Latin-1 spaces and the Unicode White_Space property. */
  predicate IsSpace(c: char) {
    || c == '\t' || c == '\n' || c == '\U{B}' || c == '\U{C}' || c == '\r' || c == ' '
    || c == '\U{85}' || c == '\U{A0}' || c == '\U{1680}'
    || ('\U{2000}' <= c <= '\U{200A}')
    || c == '\U{2028}' || c == '\U{2029}' || c == '\U{202F}' || c == '\U{205F}' || c == '\U{3000}'
  }

  predicate AllSpace(s: string) {
    forall i :: 0 <= i < |s| ==> IsSpace(s[i])
  }

  /** Drops the leading whitespace. */
  function TrimLeft(s: string): string
    decreases |s|
  {
    if s != [] && IsSpace(s[0]) then TrimLeft(s[1..]) else s
  }

  /** Drops the trailing whitespace. */
  function TrimRight(s: string): string
    decreases |s|
  {
    if s != [] && IsSpace(s[|s| - 1]) then TrimRight(s[..|s| - 1]) else s
  }

  /** strings.TrimSpace. */
  function TrimSpace(s: string): string {
    TrimRight(TrimLeft(s))
  }

  /** TrimLeft keeps the suffix that starts at the first non-space. */
  lemma {:induction false} TrimLeftShape(s: string)
    ensures var r := TrimLeft(s);
            && |r| <= |s| && r == s[|s| - |r|..]
            && (forall i :: 0 <= i < |s| - |r| ==> IsSpace(s[i]))
            && (r != [] ==> !IsSpace(r[0]))
    decreases |s|
  {
    if s != [] && IsSpace(s[0]) {
      TrimLeftShape(s[1..]);
    }
  }

  /** TrimRight keeps the prefix that ends at the last non-space. */
  lemma {:induction false} TrimRightShape(s: string)
    ensures var r := TrimRight(s);
            && |r| <= |s| && r == s[..|r|]
            && (forall i :: |r| <= i < |s| ==> IsSpace(s[i]))
            && (r != [] ==> !IsSpace(r[|r| - 1]))
    decreases |s|
  {
    if s != [] && IsSpace(s[|s| - 1]) {
      TrimRightShape(s[..|s| - 1]);
    }
  }

  /** The shape of TrimSpace's result: empty iff the text is all space, and otherwise without outer space. */
  lemma TrimSpaceShape(s: string)
    ensures |TrimSpace(s)| <= |s|
    ensures TrimSpace(s) == [] <==> AllSpace(s)
    ensures TrimSpace(s) != [] ==> !IsSpace(TrimSpace(s)[0]) && !IsSpace(TrimSpace(s)[|TrimSpace(s)| - 1])
  {
    var l := TrimLeft(s);
    TrimLeftShape(s);
    TrimRightShape(l);
    if l != [] {
      assert !IsSpace(l[0]);
    }
  }

  lemma {:induction false} TrimLeftSpaces(w: string, y: string)
    requires AllSpace(w)
    ensures TrimLeft(w + y) == TrimLeft(y)
    decreases |w|
  {
    if w != [] {
      assert (w + y)[1..] == w[1..] + y;
      TrimLeftSpaces(w[1..], y);
    } else {
      assert w + y == y;
    }
  }

  lemma {:induction false} TrimLeftAppend(x: string, y: string)
    requires !AllSpace(x)
    ensures TrimLeft(x + y) == TrimLeft(x) + y
    decreases |x|
  {
    assert x != [];
    if IsSpace(x[0]) {
      assert (x + y)[1..] == x[1..] + y;
      TrimLeftAppend(x[1..], y);
    }
  }

  lemma {:induction false} TrimRightAppend(x: string, y: string)
    requires !AllSpace(y)
    ensures TrimRight(x + y) == x + TrimRight(y)
    decreases |y|
  {
    assert y != [];
    if IsSpace(y[|y| - 1]) {
      assert (x + y)[..|x + y| - 1] == x + y[..|y| - 1];
      TrimRightAppend(x, y[..|y| - 1]);
    }
  }

  lemma {:induction false} TrimRightSpaces(y: string, w: string)
    requires AllSpace(w)
    ensures TrimRight(y + w) == TrimRight(y)
    decreases |w|
  {
    if w != [] {
      assert (y + w)[..|y + w| - 1] == y + w[..|w| - 1];
      TrimRightSpaces(y, w[..|w| - 1]);
    } else {
      assert y + w == y;
    }
  }

  /** Whitespace around a string never survives TrimSpace. */
  lemma TrimSpaceOuter(w1: string, x: string, w2: string)
    requires AllSpace(w1) && AllSpace(w2)
    ensures TrimSpace(w1 + x + w2) == TrimSpace(x)
  {
    assert w1 + x + w2 == w1 + (x + w2);
    TrimLeftSpaces(w1, x + w2);
    TrimSpaceShape(x);
    if AllSpace(x) {
      assert AllSpace(x + w2);
      TrimLeftSpaces(x + w2, []);
      assert x + w2 + [] == x + w2;
    } else {
      TrimLeftAppend(x, w2);
      TrimRightSpaces(TrimLeft(x), w2);
    }
  }

  /** A string that neither starts nor ends with a space is its own TrimSpace. */
  lemma TrimSpaceUnchanged(s: string)
    requires s != [] ==> !IsSpace(s[0]) && !IsSpace(s[|s| - 1])
    ensures TrimSpace(s) == s
  {
    assert TrimLeft(s) == s;
  }

  /** TrimSpace only removes characters: everything it keeps comes from the text. */
  lemma TrimSpaceSubset(s: string)
    ensures forall i :: 0 <= i < |TrimSpace(s)| ==> TrimSpace(s)[i] in s
  {
    var l := TrimLeft(s);
    TrimLeftShape(s);
    TrimRightShape(l);
    forall i | 0 <= i < |TrimSpace(s)|
      ensures TrimSpace(s)[i] in s
    {
      assert TrimSpace(s)[i] == l[i] == s[|s| - |l| + i];
    }
  }

  /** A text that starts with a non-space keeps its first character. */
  lemma TrimSpaceFirst(s: string)
    requires s != [] && !IsSpace(s[0])
    ensures TrimSpace(s) != [] && TrimSpace(s)[0] == s[0]
  {
    assert TrimLeft(s) == s;
    TrimRightShape(s);
  }

  /** Concatenation regrouped; stated once so proofs need not rediscover it. */
  lemma Regroup<T>(a: seq<T>, b: seq<T>, c: seq<T>)
    ensures a + b + c == a + (b + c)
  {
  }

  // ---------------------------------------------------------------------------
  // Lines (bufio.ScanLines)
  // ---------------------------------------------------------------------------

  /** The index of the first '\n' in `s`, or |s| when there is none. */
  function NewlineIndex(s: string): (i: nat)
    ensures i <= |s|
    ensures i < |s| ==> s[i] == '\n'
  {
    if s == [] || s[0] == '\n' then 0 else 1 + NewlineIndex(s[1..])
  }

  /** No '\n' comes before the first one. */
  lemma {:induction false} NewlineIndexFirst(s: string)
    ensures forall k :: 0 <= k < NewlineIndex(s) ==> s[k] != '\n'
  {
    if s != [] && s[0] != '\n' {
      NewlineIndexFirst(s[1..]);
      forall k | 0 < k < NewlineIndex(s)
        ensures s[k] != '\n'
      {
        assert s[k] == s[1..][k - 1];
      }
    }
  }

  /** The first '\n' is at i when s[i] is one and none comes before it. */
  lemma {:induction false} NewlineIndexIs(s: string, i: nat)
    requires i <= |s| && (i < |s| ==> s[i] == '\n')
    requires forall k :: 0 <= k < i ==> s[k] != '\n'
    ensures NewlineIndex(s) == i
  {
    if i > 0 {
      assert s[0] != '\n';
      forall k | 0 <= k < i - 1
        ensures s[1..][k] != '\n'
      {
        assert s[1..][k] == s[k + 1];
      }
      NewlineIndexIs(s[1..], i - 1);
    }
  }

  /**
   * The tokens bufio.ScanLines yields: the text split at each '\n', the
   * newlines dropped; a final segment is a line only when it is not empty.
   */
  function Lines(text: string): seq<string>
    decreases |text|
  {
    if text == [] then []
    else
      var i := NewlineIndex(text);
      if i == |text| then [text] else [text[..i]] + Lines(text[i + 1..])
  }

  /** No line holds a '\n'. */
  lemma {:induction false} LinesHaveNoNewline(text: string)
    ensures forall j :: 0 <= j < |Lines(text)| ==> '\n' !in Lines(text)[j]
    decreases |text|
  {
    if text != [] {
      var i := NewlineIndex(text);
      NewlineIndexFirst(text);
      if i < |text| {
        LinesHaveNoNewline(text[i + 1..]);
        assert Lines(text) == [text[..i]] + Lines(text[i + 1..]);
        assert '\n' !in text[..i];
      }
    }
  }

  /** Every line followed by a '\n', concatenated. */
  function JoinLines(lines: seq<string>): string {
    if lines == [] then "" else lines[0] + "\n" + JoinLines(lines[1..])
  }

  /** bytes.TrimSuffix(s, "\n"). */
  function TrimSuffixNewline(s: string): string {
    if s != [] && s[|s| - 1] == '\n' then s[..|s| - 1] else s
  }

  predicate NewlineTerminated(s: string) {
    s == [] || s[|s| - 1] == '\n'
  }

  lemma LinesCons(a: string, b: string)
    requires '\n' !in a
    ensures Lines(a + "\n" + b) == [a] + Lines(b)
  {
    var t := a + "\n" + b;
    assert t[|a|] == '\n';
    assert forall k :: 0 <= k < |a| ==> t[k] == a[k];
    NewlineIndexIs(t, |a|);
    var i := NewlineIndex(t);
    assert t[..i] == a;
    assert t[i + 1..] == b;
  }

  lemma {:induction false} LinesAppend(a: string, b: string)
    requires NewlineTerminated(a)
    ensures Lines(a + b) == Lines(a) + Lines(b)
    decreases |a|
  {
    if a == [] {
      assert a + b == b;
    } else {
      var i := NewlineIndex(a);
      NewlineIndexFirst(a);
      assert i < |a|;
      var t := a + b;
      assert forall k :: 0 <= k <= i ==> t[k] == a[k];
      NewlineIndexIs(t, i);
      assert t[..i] == a[..i];
      assert t[i + 1..] == a[i + 1..] + b;
      LinesAppend(a[i + 1..], b);
    }
  }

  lemma {:induction false} JoinLinesAppend(x: seq<string>, y: seq<string>)
    ensures JoinLines(x + y) == JoinLines(x) + JoinLines(y)
    decreases |x|
  {
    if x == [] {
      assert x + y == y;
    } else {
      assert (x + y)[1..] == x[1..] + y;
      JoinLinesAppend(x[1..], y);
    }
  }

  lemma JoinLinesSnoc(ls: seq<string>, x: string)
    ensures JoinLines(ls + [x]) == JoinLines(ls) + x + "\n"
  {
    JoinLinesAppend(ls, [x]);
    assert [x][1..] == [];
  }

  lemma JoinLinesCons(a: string, ls: seq<string>)
    ensures JoinLines([a] + ls) == a + "\n" + JoinLines(ls)
  {
    assert ([a] + ls)[1..] == ls;
  }

  lemma LinesAtNewline(s: string, i: nat)
    requires i == NewlineIndex(s) < |s|
    ensures Lines(s) == [s[..i]] + Lines(s[i + 1..])
    ensures s == s[..i] + "\n" + s[i + 1..]
  {
    SplitAtChar(s, i);
  }

  lemma SplitAtChar(s: string, i: nat)
    requires i < |s|
    ensures s == s[..i] + [s[i]] + s[i + 1..]
  {
  }

  lemma LinesWithoutNewline(s: string)
    requires s != [] && NewlineIndex(s) == |s|
    ensures Lines(s) == [s] && !NewlineTerminated(s)
  {
    assert s[|s| - 1] != '\n';
  }

  /** Re-adding one line in front of a re-joined text. */
  lemma RejoinLine(a: string, rest: string)
    ensures a + "\n" + (if NewlineTerminated(rest) then rest else rest + "\n")
         == if NewlineTerminated(a + "\n" + rest) then a + "\n" + rest else a + "\n" + rest + "\n"
  {
    var t := a + "\n" + rest;
    if rest != [] {
      assert t[|t| - 1] == rest[|rest| - 1];
    }
    if !NewlineTerminated(rest) {
      assert a + "\n" + (rest + "\n") == t + "\n";
    }
  }

  /** Scanning and re-joining gives the text back, with a final '\n' added when it lacked one. */
  lemma {:induction false} JoinLinesOfLines(s: string)
    ensures JoinLines(Lines(s)) == if NewlineTerminated(s) then s else s + "\n"
    decreases |s|
  {
    if s != [] {
      var i := NewlineIndex(s);
      if i == |s| {
        LinesWithoutNewline(s);
        JoinLinesCons(s, []);
      } else {
        var a, rest := s[..i], s[i + 1..];
        LinesAtNewline(s, i);
        JoinLinesCons(a, Lines(rest));
        JoinLinesOfLines(rest);
        RejoinLine(a, rest);
      }
    }
  }

  /** Lines without '\n', joined and split again, are the same lines. */
  lemma {:induction false} LinesOfJoinLines(ls: seq<string>)
    requires forall j :: 0 <= j < |ls| ==> '\n' !in ls[j]
    ensures Lines(JoinLines(ls)) == ls
    decreases |ls|
  {
    if ls != [] {
      LinesOfJoinLines(ls[1..]);
      LinesCons(ls[0], JoinLines(ls[1..]));
    }
  }

  // ---------------------------------------------------------------------------
  // Paths (filepath.Ext, filepath.Join)
  // ---------------------------------------------------------------------------

  /**
   * filepath.Ext: the suffix from the final '.' of the last path element,
   * or "" when that element has no '.'.
   */
  function Ext(path: string): string
    decreases |path|
  {
    if path == [] then ""
    else
      var c := path[|path| - 1];
      if c == '/' then ""
      else if c == '.' then "."
      else
        var e := Ext(path[..|path| - 1]);
        if e == "" then "" else e + [c]
  }

  /** The extension is a suffix of the path: a '.' and then no '.' and no '/'. */
  lemma {:induction false} ExtIsSuffix(path: string)
    ensures var e := Ext(path);
      && |e| <= |path| && e == path[|path| - |e|..]
      && (e != [] ==> e[0] == '.')
      && (forall i :: 0 <= i < |e| ==> e[i] != '/')
      && (forall i :: 1 <= i < |e| ==> e[i] != '.')
    decreases |path|
  {
    if path != [] {
      var c := path[|path| - 1];
      if c != '/' && c != '.' {
        var init := path[..|path| - 1];
        ExtIsSuffix(init);
        var e := Ext(init);
        if e != "" {
          assert path == init + [c];
          assert init[|init| - |e|..] + [c] == path[|path| - |e| - 1..];
        }
      }
    }
  }

  /** A path ending in ".<name>" has that extension, whatever comes before. */
  lemma {:induction false} ExtOfSuffix(stem: string, ext: string)
    requires ext != [] && ext[0] == '.'
    requires forall i :: 1 <= i < |ext| ==> ext[i] != '.' && ext[i] != '/'
    ensures Ext(stem + ext) == ext
    decreases |ext|
  {
    var p := stem + ext;
    if |ext| > 1 {
      assert p[..|p| - 1] == stem + ext[..|ext| - 1];
      ExtOfSuffix(stem, ext[..|ext| - 1]);
      assert ext == ext[..|ext| - 1] + [p[|p| - 1]];
    }
  }

  /** filepath.Join of two elements, without the path cleaning that follows the join. */
  function Join(dir: string, name: string): (p: string)
    ensures dir != "" && name != "" ==> p == dir + "/" + name
    ensures dir == "" ==> p == name
    ensures name == "" ==> p == dir
  {
    if dir == "" then name else if name == "" then dir else dir + "/" + name
  }

  // ---------------------------------------------------------------------------
  // Substitution (strings.ReplaceAll)
  // ---------------------------------------------------------------------------

  /** `pat` occurs in `s` starting at index `i`. */
  predicate OccursAt(s: string, pat: string, i: nat) {
    i + |pat| <= |s| && s[i..i + |pat|] == pat
  }

  ghost predicate Contains(s: string, pat: string) {
    exists i: nat :: OccursAt(s, pat, i)
  }

  /** strings.ReplaceAll: non-overlapping occurrences, left to right. */
  function ReplaceAll(s: string, pat: string, rep: string): string
    requires pat != []
    decreases |s|
  {
    if |s| < |pat| then s
    else if s[..|pat|] == pat then rep + ReplaceAll(s[|pat|..], pat, rep)
    else [s[0]] + ReplaceAll(s[1..], pat, rep)
  }

  /** A text with no occurrence of the pattern is left unchanged. */
  lemma {:induction false} ReplaceAllAbsent(s: string, pat: string, rep: string)
    requires pat != [] && !Contains(s, pat)
    ensures ReplaceAll(s, pat, rep) == s
    decreases |s|
  {
    if |s| >= |pat| {
      assert !OccursAt(s, pat, 0);
      assert s[0..|pat|] == s[..|pat|];
      assert !Contains(s[1..], pat) by {
        forall i: nat | OccursAt(s[1..], pat, i)
          ensures false
        {
          assert s[1..][i..i + |pat|] == s[i + 1..i + 1 + |pat|];
          assert OccursAt(s, pat, i + 1);
        }
      }
      ReplaceAllAbsent(s[1..], pat, rep);
    }
  }

  /** Text free of the pattern's first character passes through unchanged. */
  lemma {:induction false} ReplaceAllSkips(x: string, y: string, pat: string, rep: string)
    requires pat != [] && pat[0] !in x
    ensures ReplaceAll(x + y, pat, rep) == x + ReplaceAll(y, pat, rep)
    decreases |x|
  {
    var s := x + y;
    if x == [] {
      assert s == y;
    } else if |s| < |pat| {
      assert ReplaceAll(y, pat, rep) == y;
    } else {
      assert s[..|pat|][0] == x[0];
      assert s[1..] == x[1..] + y;
      ReplaceAllSkips(x[1..], y, pat, rep);
    }
  }

  /** An occurrence at the front is replaced. */
  lemma ReplaceAllHead(pat: string, y: string, rep: string)
    requires pat != []
    ensures ReplaceAll(pat + y, pat, rep) == rep + ReplaceAll(y, pat, rep)
  {
    var s := pat + y;
    assert s[..|pat|] == pat;
    assert s[|pat|..] == y;
  }

  /**
   * Text that starts like the pattern but differs from it at its second
   * character, with the pattern's first character nowhere else, passes through.
   */
  lemma ReplaceAllMismatch(q: string, y: string, pat: string, rep: string)
    requires |q| >= 2 && |pat| >= 2 && q[1] != pat[1] && pat[0] !in q[1..]
    ensures ReplaceAll(q + y, pat, rep) == q + ReplaceAll(y, pat, rep)
  {
    var s := q + y;
    var t := q[1..];
    assert s[1..] == t + y;
    ReplaceAllSkips(t, y, pat, rep);
    if |s| < |pat| {
      assert ReplaceAll(s, pat, rep) == s;
      assert ReplaceAll(y, pat, rep) == y;
    } else {
      assert s[..|pat|] != pat by {
        assert s[..|pat|][1] == q[1];
      }
      assert ReplaceAll(s, pat, rep) == [q[0]] + ReplaceAll(t + y, pat, rep);
      assert [q[0]] + t == q;
    }
  }

  // ---------------------------------------------------------------------------
  // Decimal formatting (fmt "%d" and "%02d")
  // ---------------------------------------------------------------------------

  predicate IsDigit(c: char) {
    '0' <= c <= '9'
  }

  function DigitChar(d: nat): char
    requires d < 10
  {
    ('0' as int + d) as char
  }

  /** The decimal digits of `n`, most significant first, with no leading zero. */
  function Digits(n: nat): (r: string)
    ensures r != [] && forall i :: 0 <= i < |r| ==> IsDigit(r[i])
    ensures |r| > 1 ==> r[0] != '0'
  {
    if n < 10 then [DigitChar(n)] else Digits(n / 10) + [DigitChar(n % 10)]
  }

  /** The number a string of decimal digits denotes. */
  function DigitsValue(s: string): int
    requires forall i :: 0 <= i < |s| ==> IsDigit(s[i])
  {
    if s == [] then 0 else 10 * DigitsValue(s[..|s| - 1]) + (s[|s| - 1] as int - '0' as int)
  }

  /** Reading the digits back gives the number. */
  lemma {:induction false} DigitsRoundTrip(n: nat)
    ensures DigitsValue(Digits(n)) == n
  {
    if n >= 10 {
      var r := Digits(n);
      assert r[..|r| - 1] == Digits(n / 10);
      DigitsRoundTrip(n / 10);
    }
  }

  /** fmt's "%d". */
  function Decimal(n: int): (r: string)
    ensures r != []
    ensures n >= 0 ==> forall i :: 0 <= i < |r| ==> IsDigit(r[i])
    ensures n < 0 ==> r[0] == '-' && forall i :: 1 <= i < |r| ==> IsDigit(r[i])
  {
    if n < 0 then "-" + Digits(-n) else Digits(n)
  }

  /** fmt's "%02d" for a non-negative number: at least two digits, zero-padded. */
  function Pad2(n: nat): (r: string)
    ensures forall i :: 0 <= i < |r| ==> IsDigit(r[i])
    ensures n < 100 ==> |r| == 2
    ensures DigitsValue(r) == n
  {
    DigitsRoundTrip(n);
    if n < 10 then
      assert DigitsValue("0" + Digits(n)) == n by {
        var r := "0" + Digits(n);
        assert r[..|r| - 1] == "0";
        assert DigitsValue("0") == 0 by { assert "0"[..0] == ""; }
      }
      "0" + Digits(n)
    else Digits(n)
  }
}
