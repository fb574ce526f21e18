/** Leading comments and white space of SQL text, as skipped by the statement
    classifier and, separately, by the session-state detector. */
module Scanner {

  /** `unicode.IsSpace`. */
  predicate IsSpace(c: char) {
    var u := c as int;
    || 9 <= u <= 13 || u == 0x20 || u == 0x85 || u == 0xA0
    || u == 0x1680 || 0x2000 <= u <= 0x200A
    || u == 0x2028 || u == 0x2029 || u == 0x202F || u == 0x205F || u == 0x3000
  }

  ghost predicate AllSpace(s: string) {
    forall i :: 0 <= i < |s| ==> IsSpace(s[i])
  }

  ghost predicate IsSuffix(r: string, s: string) {
    |r| <= |s| && r == s[|s| - |r|..]
  }

  function LeadingSpaces(s: string, from: nat): (n: nat)
    requires from <= |s|
    ensures from <= n <= |s|
    ensures forall i :: from <= i < n ==> IsSpace(s[i])
    ensures n < |s| ==> !IsSpace(s[n])
    decreases |s| - from
  {
    if from < |s| && IsSpace(s[from]) then LeadingSpaces(s, from + 1) else from
  }

  function TrailingStart(s: string, to: nat): (n: nat)
    requires to <= |s|
    ensures n <= to
    ensures forall i :: n <= i < to ==> IsSpace(s[i])
    ensures n > 0 ==> !IsSpace(s[n - 1])
  {
    if to > 0 && IsSpace(s[to - 1]) then TrailingStart(s, to - 1) else to
  }

  /** `strings.TrimLeftFunc(s, unicode.IsSpace)`. */
  function TrimLeft(s: string): (r: string)
    ensures IsSuffix(r, s)
    ensures forall i :: 0 <= i < |s| - |r| ==> IsSpace(s[i])
    ensures r != [] ==> !IsSpace(r[0])
  {
    s[LeadingSpaces(s, 0)..]
  }

  function TrimRight(s: string): (r: string)
    ensures r <= s
    ensures forall i :: |r| <= i < |s| ==> IsSpace(s[i])
    ensures r != [] ==> !IsSpace(r[|r| - 1])
  {
    s[..TrailingStart(s, |s|)]
  }

  /** `strings.TrimSpace`. */
  function TrimSpace(s: string): string {
    TrimRight(TrimLeft(s))
  }

  /** `sub` occurs in `s` at position `i`. */
  predicate At(s: string, sub: string, i: int) {
    0 <= i && i + |sub| <= |s| && s[i..i + |sub|] == sub
  }

  /** `strings.Index`: the first occurrence of `sub`, or -1. */
  function IndexOf(s: string, sub: string): (k: int)
    ensures -1 <= k
    ensures 0 <= k ==> At(s, sub, k)
    ensures forall i :: 0 <= i && (k < 0 || i < k) ==> !At(s, sub, i)
  {
    IndexFrom(s, sub, 0)
  }

  function IndexFrom(s: string, sub: string, from: nat): (k: int)
    ensures k == -1 || (from <= k && At(s, sub, k))
    ensures forall i :: from <= i && (k < 0 || i < k) ==> !At(s, sub, i)
    decreases |s| - from
  {
    if |s| < from + |sub| then -1
    else if At(s, sub, from) then from
    else if |s| <= from then -1
    else IndexFrom(s, sub, from + 1)
  }

  /** What is left of `s` after its leading white space and comments. */
  function Strip(s: string): string
    decreases |s|, 1
  {
    StripTrimmed(TrimLeft(s))
  }

  function StripTrimmed(t: string): string
    decreases |t|, 0
  {
    if At(t, "--", 0) then
      var k := IndexOf(t, "\n");
      if k < 0 then "" else Strip(t[k + 1..])
    else if At(t, "/*", 0) then
      var k := IndexOf(t, "*/");
      if k < 0 then "" else Strip(t[k + 2..])
    else t
  }

  method StripCommentsAndWhitespace(text: string) returns (s: string)
    ensures s == Strip(text)
  {
    s := text;
    while true
      invariant Strip(s) == Strip(text)
      decreases |s|
    {
      s := TrimLeft(s);
      TrimLeftOfTrimmed(s);
      if At(s, "--", 0) {
        var idx := IndexOf(s, "\n");
        if idx < 0 { return ""; }
        s := s[idx + 1..];
      } else if At(s, "/*", 0) {
        var idx := IndexOf(s, "*/");
        if idx < 0 { return ""; }
        s := s[idx + 2..];
      } else {
        return;
      }
    }
  }

  /** `stripLeadingComments`: the second scanner, which trims both ends on every round. */
  function StripLeading(s: string): string
    decreases |s|, 1
  {
    StripLeadingTrimmed(TrimSpace(s))
  }

  function StripLeadingTrimmed(t: string): string
    decreases |t|, 0
  {
    if At(t, "--", 0) then
      var k := IndexOf(t, "\n");
      if k < 0 then "" else StripLeading(t[k + 1..])
    else if At(t, "/*", 0) then
      var k := IndexOf(t, "*/");
      if k < 0 then "" else StripLeading(t[k + 2..])
    else t
  }

  method StripLeadingComments(text: string) returns (r: string)
    ensures r == StripLeading(text)
    ensures r == TrimRight(Strip(text))
  {
    var stmt := text;
    while true
      invariant StripLeading(stmt) == StripLeading(text)
      decreases |stmt|
    {
      var trimmed := TrimSpace(stmt);
      if At(trimmed, "--", 0) {
        var idx := IndexOf(trimmed, "\n");
        if idx < 0 { r := ""; break; }
        stmt := trimmed[idx + 1..];
      } else if At(trimmed, "/*", 0) {
        var idx := IndexOf(trimmed, "*/");
        if idx < 0 { r := ""; break; }
        stmt := trimmed[idx + 2..];
      } else {
        r := trimmed;
        break;
      }
    }
    StripLeadingIsStrip(text);
  }

  // ---------- trimming ----------

  lemma {:induction false} TrimLeftOfTrimmed(s: string)
    ensures s == [] || !IsSpace(s[0]) ==> TrimLeft(s) == s
  {}

  lemma {:induction false} TrimLeftPrepend(w: string, s: string)
    requires AllSpace(w)
    ensures TrimLeft(w + s) == TrimLeft(s)
  {
    var n, m := LeadingSpaces(w + s, 0), LeadingSpaces(s, 0);
    assert forall i :: 0 <= i < |s| ==> (w + s)[|w| + i] == s[i];
    assert n == |w| + m;
    assert (w + s)[n..] == s[m..];
  }

  /** A sequence is trimmed at its end in only one way. */
  lemma {:induction false} TrimRightUnique(r: string, w: string)
    requires AllSpace(w)
    requires r != [] ==> !IsSpace(r[|r| - 1])
    ensures TrimRight(r + w) == r
  {
    var n := TrailingStart(r + w, |r + w|);
    assert forall i :: |r| <= i < |r + w| ==> IsSpace((r + w)[i]) by {
      forall i | |r| <= i < |r + w| ensures IsSpace((r + w)[i]) { assert (r + w)[i] == w[i - |r|]; }
    }
    assert r != [] ==> !IsSpace((r + w)[|r| - 1]);
    assert n == |r|;
    assert (r + w)[..|r|] == r;
  }

  lemma {:induction false} TrimRightAppend(p: string, s: string)
    requires TrimRight(s) != []
    ensures TrimRight(p + s) == p + TrimRight(s)
  {
    var r := TrimRight(s);
    assert p + s == (p + r) + s[|r|..];
    TrimRightUnique(p + r, s[|r|..]);
  }

  lemma {:induction false} TrimRightAllSpace(s: string)
    requires AllSpace(s)
    ensures TrimRight(s) == []
  {
    TrimRightUnique([], s);
    assert [] + s == s;
  }

  lemma {:induction false} IndexOfUnique(s: string, sub: string, k: nat)
    requires At(s, sub, k)
    requires forall i :: 0 <= i < k ==> !At(s, sub, i)
    ensures IndexOf(s, sub) == k
  {}

  lemma {:induction false} AtPair(s: string, a: char, b: char, i: int)
    ensures At(s, [a, b], i) <==> 0 <= i && i + 1 < |s| && s[i] == a && s[i + 1] == b
  {
    if 0 <= i && i + 1 < |s| { assert s[i..i + 2] == [s[i], s[i + 1]]; }
  }

  // ---------- what the scanner computes ----------

  /** The result is a suffix of the text that begins with neither white space nor a comment. */
  lemma {:induction false} StripResult(s: string)
    ensures IsSuffix(Strip(s), s)
    ensures Strip(s) != [] ==> !IsSpace(Strip(s)[0])
    ensures !At(Strip(s), "--", 0) && !At(Strip(s), "/*", 0)
    decreases |s|, 1
  {
    var t := TrimLeft(s);
    StripTrimmedResult(t);
    SuffixTransitive(StripTrimmed(t), t, s);
  }

  lemma {:induction false} SuffixTransitive(a: string, b: string, c: string)
    requires IsSuffix(a, b) && IsSuffix(b, c)
    ensures IsSuffix(a, c)
  {}

  lemma {:induction false} StripTrimmedResult(t: string)
    requires t != [] ==> !IsSpace(t[0])
    ensures IsSuffix(StripTrimmed(t), t)
    ensures StripTrimmed(t) != [] ==> !IsSpace(StripTrimmed(t)[0])
    ensures !At(StripTrimmed(t), "--", 0) && !At(StripTrimmed(t), "/*", 0)
    decreases |t|, 0
  {
    var k := if At(t, "--", 0) then IndexOf(t, "\n") + 1 else IndexOf(t, "*/") + 2;
    if At(t, "--", 0) && 0 < k {
      StripResult(t[k..]);
      SuffixTransitive(Strip(t[k..]), t[k..], t);
    } else if !At(t, "--", 0) && At(t, "/*", 0) && 1 < k {
      StripResult(t[k..]);
      SuffixTransitive(Strip(t[k..]), t[k..], t);
    }
  }

  lemma {:induction false} StripIdempotent(s: string)
    ensures Strip(Strip(s)) == Strip(s)
  {
    StripResult(s);
    TrimLeftOfTrimmed(Strip(s));
  }

  lemma {:induction false} StripSkipsSpace(w: string, s: string)
    requires AllSpace(w)
    ensures Strip(w + s) == Strip(s)
  {
    TrimLeftPrepend(w, s);
  }

  lemma {:induction false} LineCommentStep(t: string, k: int)
    requires 2 <= k < |t| && t[0] == t[1] == '-' && t[k] == '\n'
    requires forall i :: 0 <= i < k ==> t[i] != '\n'
    ensures Strip(t) == Strip(t[k + 1..])
  {
    AtPair(t, '-', '-', 0);
    assert t[k..k + 1] == [t[k]];
    forall i | 0 <= i < k ensures !At(t, "\n", i) {
      assert t[i..i + 1] == [t[i]];
    }
    IndexOfUnique(t, "\n", k);
  }

  lemma {:induction false} BlockCommentStep(t: string, k: int)
    requires 1 <= k < |t| - 1 && t[0] == '/' && t[1] == '*' && t[k] == '*' && t[k + 1] == '/'
    requires forall i :: 0 <= i < k && t[i] == '*' ==> t[i + 1] != '/'
    ensures Strip(t) == Strip(t[k + 2..])
  {
    AtPair(t, '/', '*', 0);
    AtPair(t, '-', '-', 0);
    AtPair(t, '*', '/', k);
    forall i | 0 <= i < k ensures !At(t, "*/", i) {
      AtPair(t, '*', '/', i);
    }
    IndexOfUnique(t, "*/", k);
  }

  lemma {:induction false} StripSkipsLineComment(body: string, s: string)
    requires '\n' !in body
    ensures Strip("--" + body + "\n" + s) == Strip(s)
  {
    var t := "--" + body + "\n" + s;
    var k := 2 + |body|;
    assert t[k + 1..] == s;
    LineCommentStep(t, k);
  }

  /** The block-comment rule for every body without a terminator. The search for the
      terminator starts at the opening delimiter, so a body that begins with '/' closes
      the comment at once and the rest of the body is scanned as SQL. */
  lemma {:induction false} StripSkipsBlockComment(body: string, s: string)
    requires forall i :: 0 <= i < |body| - 1 && body[i] == '*' ==> body[i + 1] != '/'
    ensures Strip("/*" + body + "*/" + s) ==
            if body != [] && body[0] == '/' then Strip(body[1..] + "*/" + s) else Strip(s)
  {
    var t := "/*" + body + "*/" + s;
    if body != [] && body[0] == '/' {
      assert t[3..] == body[1..] + "*/" + s;
      BlockCommentStep(t, 1);
    } else {
      var k := 2 + |body|;
      forall i | 0 <= i < k && t[i] == '*' ensures t[i + 1] != '/' {
        if 2 <= i < k - 1 { assert t[i] == body[i - 2] && t[i + 1] == body[i - 1]; }
      }
      assert t[k + 2..] == s;
      BlockCommentStep(t, k);
    }
  }

  /** The exception is real: the comment's own text comes back. */
  lemma {:induction false} SlashStarSlashLeaks(x: char, s: string)
    requires !IsSpace(x) && x != '-' && x != '/'
    ensures Strip("/*" + ['/', x] + "*/" + s) == [x] + "*/" + s
  {
    var t := ['/', x][1..] + "*/" + s;
    StripSkipsBlockComment(['/', x], s);
    assert t == [x] + "*/" + s;
    AtPair(t, '-', '-', 0);
    AtPair(t, '/', '*', 0);
  }

  // ---------- the two scanners agree ----------

  lemma {:induction false} TrimRightTwice(s: string)
    ensures TrimRight(TrimRight(s)) == TrimRight(s)
  {
    TrimRightUnique(TrimRight(s), []);
    assert TrimRight(s) + [] == TrimRight(s);
  }

  lemma {:induction false} TrimsCommute(s: string)
    ensures TrimLeft(TrimRight(s)) == TrimRight(TrimLeft(s))
  {
    var t := TrimLeft(s);
    var w := s[..|s| - |t|];
    assert s == w + t;
    if TrimRight(t) == [] {
      TrimRightAllSpace(s);
    } else {
      TrimRightAppend(w, t);
      TrimLeftPrepend(w, TrimRight(t));
      TrimLeftOfTrimmed(TrimRight(t));
    }
  }

  lemma {:induction false} TrimSpaceOfTrimRight(s: string)
    ensures TrimSpace(TrimRight(s)) == TrimSpace(s)
  {
    TrimsCommute(s);
    TrimRightTwice(TrimLeft(s));
  }

  lemma {:induction false} TrimRightOfSuffix(t: string, k: nat)
    requires k <= |TrimRight(t)|
    ensures TrimRight(t[k..]) == TrimRight(t)[k..]
  {
    var u := TrimRight(t);
    assert t[k..] == u[k..] + t[|u|..];
    TrimRightUnique(u[k..], t[|u|..]);
  }

  /** A search that ends inside the trimmed text is not disturbed by trimming. */
  lemma {:induction false} IndexOfTrimmed(t: string, sub: string)
    requires sub != []
    ensures var u, k := TrimRight(t), IndexOf(t, sub);
            IndexOf(u, sub) == if 0 <= k && k + |sub| <= |u| then k else -1
  {
    var u := TrimRight(t);
    forall i | 0 <= i && i + |sub| <= |u| ensures At(u, sub, i) <==> At(t, sub, i) {
      assert t[i..i + |sub|] == u[i..i + |sub|];
    }
  }

  lemma {:induction false} PrefixOfTrimmed(t: string, a: char, b: char)
    requires !IsSpace(b)
    ensures At(t, [a, b], 0) <==> At(TrimRight(t), [a, b], 0)
  {
    AtPair(t, a, b, 0);
    AtPair(TrimRight(t), a, b, 0);
  }

  /** The session-state detector sees exactly what the classifier sees, up to trailing
      white space, on every text. */
  lemma {:induction false} StripLeadingIsStrip(s: string)
    ensures StripLeading(s) == TrimRight(Strip(s))
    decreases |s|, 1
  {
    var t := TrimLeft(s);
    PrefixOfTrimmed(t, '-', '-');
    PrefixOfTrimmed(t, '/', '*');
    if At(t, "--", 0) {
      LineCommentTrimmed(s, t);
    } else if At(t, "/*", 0) {
      BlockCommentTrimmed(s, t);
    }
  }

  lemma {:induction false} StripLeadingRound(s: string)
    ensures StripLeading(TrimRight(s)) == StripLeading(s)
  {
    TrimSpaceOfTrimRight(s);
  }

  lemma {:induction false} LineCommentTrimmed(s: string, t: string)
    requires t == TrimLeft(s) && At(t, "--", 0) && At(TrimRight(t), "--", 0)
    ensures StripLeading(s) == TrimRight(Strip(s))
    decreases |s|, 0
  {
    var u, k := TrimRight(t), IndexOf(t, "\n");
    IndexOfTrimmed(t, "\n");
    if k < 0 {
    } else if k < |u| {
      TrimRightOfSuffix(t, k + 1);
      StripLeadingRound(t[k + 1..]);
      StripLeadingIsStrip(t[k + 1..]);
    } else {
      assert TrimLeft(t[k + 1..]) == [];
      assert Strip(t[k + 1..]) == [];
    }
  }

  lemma {:induction false} TerminatorInside(t: string, k: int)
    requires At(t, "*/", k)
    ensures k + 2 <= |TrimRight(t)|
  {
    AtPair(t, '*', '/', k);
  }

  lemma {:induction false} BlockCommentTrimmed(s: string, t: string)
    requires t == TrimLeft(s) && At(t, "/*", 0) && At(TrimRight(t), "/*", 0)
    requires !At(t, "--", 0) && !At(TrimRight(t), "--", 0)
    ensures StripLeading(s) == TrimRight(Strip(s))
    decreases |s|, 0
  {
    var u, k := TrimRight(t), IndexOf(t, "*/");
    IndexOfTrimmed(t, "*/");
    if 0 <= k {
      TerminatorInside(t, k);
      TrimRightOfSuffix(t, k + 2);
      StripLeadingRound(t[k + 2..]);
      StripLeadingIsStrip(t[k + 2..]);
    }
  }
}
