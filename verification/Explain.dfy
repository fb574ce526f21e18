/** EXPLAIN text: it is a read unless ANALYZE is among its options, in either syntax, whatever
    comments and white space lie between them. */
module Explain {
  import opened Scanner
  import opened Classifier

  // ---------- blanks ----------

  datatype Piece = Space(c: char) | Line(body: string) | Block(body: string)

  /** White space, a line comment, or a block comment that closes only at its end. */
  ghost predicate Proper(p: Piece) {
    match p
    case Space(c) => IsSpace(c)
    case Line(body) => '\n' !in body
    case Block(body) =>
      && (body == [] || body[0] != '/')
      && forall i :: 0 <= i < |body| - 1 && body[i] == '*' ==> body[i + 1] != '/'
  }

  ghost function Show(p: Piece): string {
    match p
    case Space(c) => [c]
    case Line(body) => "--" + body + "\n"
    case Block(body) => "/*" + body + "*/"
  }

  ghost function Render(ps: seq<Piece>): string {
    if ps == [] then [] else Show(ps[0]) + Render(ps[1..])
  }

  ghost predicate Blank(ps: seq<Piece>) {
    forall i :: 0 <= i < |ps| ==> Proper(ps[i])
  }

  /** A blank that ends the word before it: a comment alone would be taken for part of it. */
  ghost predicate Gap(ps: seq<Piece>) {
    Blank(ps) && ps != [] && ps[0].Space?
  }

  lemma {:induction false} PieceSkipped(p: Piece, x: string)
    requires Proper(p)
    ensures Strip(Show(p) + x) == Strip(x)
  {
    match p
    case Space(c) => StripSkipsSpace([c], x);
    case Line(body) =>
      assert Show(p) + x == "--" + body + "\n" + x;
      StripSkipsLineComment(body, x);
    case Block(body) =>
      assert Show(p) + x == "/*" + body + "*/" + x;
      StripSkipsBlockComment(body, x);
  }

  lemma {:induction false} BlankSkipped(ps: seq<Piece>, x: string)
    requires Blank(ps)
    ensures Strip(Render(ps) + x) == Strip(x)
  {
    if ps == [] {
      assert Render(ps) + x == x;
    } else {
      assert Render(ps) + x == Show(ps[0]) + (Render(ps[1..]) + x);
      PieceSkipped(ps[0], Render(ps[1..]) + x);
      BlankSkipped(ps[1..], x);
    }
  }

  lemma {:induction false} GapSeparates(ps: seq<Piece>, x: string)
    requires Gap(ps)
    ensures Render(ps) + x != [] && IsSpace((Render(ps) + x)[0])
  {
    assert Proper(ps[0]);
  }

  // ---------- the cap ----------

  ghost function Bytes(s: string): nat {
    if s == [] then 0 else Width(s[0]) + Bytes(s[1..])
  }

  /** Text that fits the cap is kept whole. */
  lemma {:induction false} CapKeeps(s: string, rest: string, budget: nat)
    requires Bytes(s) <= budget
    ensures Cap(s + rest, budget) == s + Cap(rest, budget - Bytes(s))
  {
    if s == [] {
      assert s + rest == rest;
    } else {
      FirstOff(s, rest);
      FirstOff(s, Cap(rest, budget - Bytes(s)));
      CapStep(s[0], s[1..] + rest, budget);
      CapKeeps(s[1..], rest, budget - Width(s[0]));
    }
  }

  lemma {:induction false} CapSeparated(rest: string, budget: nat)
    requires Separated(rest) && budget > 0
    ensures Separated(Cap(rest, budget))
  {
    if rest != [] { assert Cap(rest, budget)[0] == rest[0]; }
  }

  // ---------- tokens ----------

  const STOPS: set<char> := {'(', ';'}
  const LIST_STOPS: set<char> := {',', '(', ')'}

  /** The tokens of a text, blanks between them skipped, up to a parenthesis, a semicolon or
      the end. */
  ghost function Tokens(text: string): seq<string>
    decreases |text|
  {
    StripResult(text);
    var s := Strip(text);
    var n := TokenEnd(s, STOPS);
    if n == 0 then [] else [s[..n]] + Tokens(s[n..])
  }

  ghost predicate FlagWord(w: string) {
    w in {"verbose", "costs", "buffers", "timing", "summary", "format", "settings", "wal"}
  }

  /** ANALYZE stands at position `k`, behind flags only. */
  ghost predicate FlagsUpTo(tokens: seq<string>, k: nat) {
    k < |tokens| && ToLower(tokens[k]) == "analyze" && forall j :: 0 <= j < k ==> FlagWord(ToLower(tokens[j]))
  }

  ghost predicate Leads(tokens: seq<string>) {
    exists k: nat :: FlagsUpTo(tokens, k)
  }

  lemma {:induction false} LeadsCons(word: string, tokens: seq<string>)
    ensures Leads([word] + tokens) <==> ToLower(word) == "analyze" || (FlagWord(ToLower(word)) && Leads(tokens))
  {
    var all := [word] + tokens;
    if ToLower(word) == "analyze" { assert FlagsUpTo(all, 0); }
    if FlagWord(ToLower(word)) && Leads(tokens) {
      var k: nat :| FlagsUpTo(tokens, k);
      assert forall j :: 1 <= j < |all| ==> all[j] == tokens[j - 1];
      assert FlagsUpTo(all, k + 1);
    }
    if Leads(all) && ToLower(word) != "analyze" {
      var k: nat :| FlagsUpTo(all, k);
      assert all[0] == word && forall j :: 0 <= j < |tokens| ==> tokens[j] == all[j + 1];
      assert FlagsUpTo(tokens, k - 1);
    }
  }

  /** One token of the scan. */
  lemma {:induction false} FlagsUnfold(text: string, word: string, rest: string)
    requires Strip(text) == word + rest && word != [] && TokenEnd(word + rest, STOPS) == |word|
    ensures FlagsThenAnalyze(text) <==> ToLower(word) == "analyze" || (FlagWord(ToLower(word)) && FlagsThenAnalyze(rest))
  {
    var s := word + rest;
    assert s[..|word|] == word && s[|word|..] == rest;
  }

  lemma {:induction false} TokensUnfold(text: string, word: string, rest: string)
    requires Strip(text) == word + rest && word != [] && TokenEnd(word + rest, STOPS) == |word|
    ensures Tokens(text) == [word] + Tokens(rest)
  {
    var s := word + rest;
    assert s[..|word|] == word && s[|word|..] == rest;
  }

  lemma {:induction false} FlagsStop(text: string)
    requires TokenEnd(Strip(text), STOPS) == 0
    ensures !FlagsThenAnalyze(text) && Tokens(text) == []
  {}

  /** The flag scan finds ANALYZE exactly when it leads the tokens behind flags only. */
  lemma {:induction false} FlagsExactly(text: string)
    ensures FlagsThenAnalyze(text) <==> Leads(Tokens(text))
    decreases |text|
  {
    StripResult(text);
    var s := Strip(text);
    var n := TokenEnd(s, STOPS);
    if n == 0 {
      FlagsStop(text);
    } else {
      var word, rest := s[..n], s[n..];
      assert s == word + rest;
      FlagsUnfold(text, word, rest);
      TokensUnfold(text, word, rest);
      LeadsCons(word, Tokens(rest));
      FlagsExactly(rest);
    }
  }

  // ---------- lists ----------

  /** The first word of each entry of a comma list, up to an entry without one. */
  ghost function Heads(s: string): seq<string>
    decreases |s|
  {
    if At(s, ",", 0) then
      StripResult(s[1..]);
      Heads(Strip(s[1..]))
    else
      var n := TokenEnd(s, LIST_STOPS);
      if n == 0 then []
      else
        var k := IndexOf(s, ",");
        if k < 0 then [s[..n]]
        else
          StripResult(s[k + 1..]);
          [s[..n]] + Heads(Strip(s[k + 1..]))
  }

  ghost predicate Among(heads: seq<string>, target: string) {
    exists k :: 0 <= k < |heads| && ToLower(heads[k]) == target
  }

  lemma {:induction false} AmongCons(word: string, heads: seq<string>, target: string)
    ensures Among([word] + heads, target) <==> ToLower(word) == target || Among(heads, target)
  {
    var all := [word] + heads;
    assert all[0] == word && forall j :: 0 <= j < |heads| ==> heads[j] == all[j + 1];
    if Among(heads, target) {
      var k :| 0 <= k < |heads| && ToLower(heads[k]) == target;
      assert ToLower(all[k + 1]) == target;
    }
    if Among(all, target) && ToLower(word) != target {
      var k :| 0 <= k < |all| && ToLower(all[k]) == target;
      assert ToLower(heads[k - 1]) == target;
    }
  }

  lemma {:induction false} ListUnfold(s: string, target: string, n: nat, k: int)
    requires !At(s, ",", 0) && n == TokenEnd(s, LIST_STOPS) && n > 0 && k == IndexOf(s, ",")
    ensures ListContains(s, target) <==>
            ToLower(s[..n]) == target || (k >= 0 && ListContains(Strip(s[k + 1..]), target))
  {
    if k >= 0 { StripResult(s[k + 1..]); }
  }

  lemma {:induction false} HeadsUnfold(s: string, n: nat, k: int)
    requires !At(s, ",", 0) && n == TokenEnd(s, LIST_STOPS) && n > 0 && k == IndexOf(s, ",")
    ensures Heads(s) == [s[..n]] + (if k >= 0 then Heads(Strip(s[k + 1..])) else [])
  {
    if k >= 0 { StripResult(s[k + 1..]); }
  }

  lemma {:induction false} ListComma(s: string, target: string)
    requires At(s, ",", 0)
    ensures ListContains(s, target) == ListContains(Strip(s[1..]), target) && Heads(s) == Heads(Strip(s[1..]))
  {
    StripResult(s[1..]);
  }

  lemma {:induction false} ListStop(s: string, target: string)
    requires !At(s, ",", 0) && TokenEnd(s, LIST_STOPS) == 0
    ensures !ListContains(s, target) && Heads(s) == []
  {}

  /** The list scan finds a word exactly when it is among the entries' first words. */
  lemma {:induction false} ListExactly(s: string, target: string)
    ensures ListContains(s, target) <==> Among(Heads(s), target)
    decreases |s|
  {
    var n, k := TokenEnd(s, LIST_STOPS), IndexOf(s, ",");
    if At(s, ",", 0) {
      ListComma(s, target);
      StripResult(s[1..]);
      ListExactly(Strip(s[1..]), target);
    } else if n == 0 {
      ListStop(s, target);
    } else {
      ListUnfold(s, target, n, k);
      HeadsUnfold(s, n, k);
      var rest := if k >= 0 then Heads(Strip(s[k + 1..])) else [];
      AmongCons(s[..n], rest, target);
      if k >= 0 {
        StripResult(s[k + 1..]);
        ListExactly(Strip(s[k + 1..]), target);
      }
    }
  }

  // ---------- the exact condition ----------

  /** ANALYZE among the options: as the first word of an entry of the parenthesised list that
      opens them, or behind flags in what follows. */
  ghost predicate HasAnalyze(after: string) {
    var s := Strip(after);
    if At(s, "(", 0) && CloseParen(s, 1, 1).1 == 0 then
      var end := CloseParen(s, 1, 1).0;
      Among(Heads(Strip(s[1..end - 1])), "analyze") || Leads(Tokens(s[end..]))
    else Leads(Tokens(s))
  }

  lemma {:induction false} AnalyzeExactly(after: string)
    ensures ExplainAnalyze(after) <==> HasAnalyze(after)
  {
    var s := Strip(after);
    if At(s, "(", 0) && CloseParen(s, 1, 1).1 == 0 {
      var end := CloseParen(s, 1, 1).0;
      ListExactly(Strip(s[1..end - 1]), "analyze");
      FlagsExactly(s[end..]);
    } else {
      FlagsExactly(s);
    }
  }

  /** Ends a token. */
  ghost predicate Ends(tail: string) {
    tail == [] || IsSpace(tail[0]) || tail[0] in STOPS
  }

  lemma {:induction false} WordToken(word: string, tail: string)
    requires word != [] && Letters(word) && Ends(tail)
    ensures Strip(word + tail) == word + tail && TokenEnd(word + tail, STOPS) == |word|
  {
    assert (word + tail)[..1] == word[..1];
    StripOfWord(word + tail);
    TokenOfWord(word, tail, STOPS);
  }

  lemma {:induction false} KeywordSplit(word: string, after: string)
    requires word != [] && TokenEnd(word + after, STOPS) == |word|
    ensures KeywordOf(word + after) == KeywordAt(ToLower(word), after)
  {
    var s := word + after;
    assert s[..|word|] == word && s[|word|..] == after;
  }

  lemma {:induction false} ExplainKeyword(word: string, after: string)
    requires Letters(word) && |word| == 7 && ToLower(word) == "explain" && Ends(after)
    ensures KeywordOf(word + after) == KeywordAt("explain", after)
  {
    WordToken(word, after);
    KeywordSplit(word, after);
  }

  /** The class of text that begins with EXPLAIN, as the cap leaves it. */
  lemma {:induction false} ExplainClass(sql: string, lead: seq<Piece>, word: string, after: string)
    requires Blank(lead) && Cap(sql, KEYWORD_CAP) == Render(lead) + (word + after)
    requires Letters(word) && |word| == 7 && ToLower(word) == "explain" && Ends(after)
    ensures KeywordClass(sql) == Class(if ExplainAnalyze(after) then Write else Read, FromKeyword)
  {
    BlankSkipped(lead, word + after);
    WordToken(word, after);
    ExplainKeyword(word, after);
  }

  lemma {:induction false} Regroup(a: string, b: string, c: string)
    ensures a + b + c == a + (b + c)
  {}

  lemma {:induction false} CapHead(l: string, body: string, rest: string)
    requires Bytes(l + body) <= KEYWORD_CAP
    ensures Cap(l + body + rest, KEYWORD_CAP) == l + (body + Cap(rest, KEYWORD_CAP - Bytes(l + body)))
  {
    CapKeeps(l + body, rest, KEYWORD_CAP);
    Regroup(l, body, Cap(rest, KEYWORD_CAP - Bytes(l + body)));
  }

  /** EXPLAIN text, in any letter case and behind any blanks that fit the cap, is a write
      exactly when ANALYZE is among the options that the cap leaves, and otherwise a read. */
  lemma {:induction false} ExplainExactly(lead: seq<Piece>, word: string, rest: string)
    requires Blank(lead) && Letters(word) && ToLower(word) == "explain" && Separated(rest)
    requires Bytes(Render(lead) + word) < KEYWORD_CAP
    ensures KeywordClass(Render(lead) + word + rest) ==
            Class(if HasAnalyze(Cap(rest, KEYWORD_CAP - Bytes(Render(lead) + word))) then Write else Read, FromKeyword)
  {
    var tail := Cap(rest, KEYWORD_CAP - Bytes(Render(lead) + word));
    CapHead(Render(lead), word, rest);
    CapSeparated(rest, KEYWORD_CAP - Bytes(Render(lead) + word));
    assert |word| == |ToLower(word)| == 7;
    ExplainClass(Render(lead) + word + rest, lead, word, tail);
    AnalyzeExactly(tail);
  }

  // ---------- flags written out ----------

  /** A flag with the gap after it. */
  datatype Flag = Flag(word: string, gap: seq<Piece>)

  ghost predicate IsFlag(f: Flag) {
    f.word != [] && Letters(f.word) && FlagWord(ToLower(f.word)) && Gap(f.gap)
  }

  ghost predicate AreFlags(fs: seq<Flag>) {
    forall i :: 0 <= i < |fs| ==> IsFlag(fs[i])
  }

  ghost predicate IsAnalyze(word: string) {
    |word| == 7 && Letters(word) && ToLower(word) == "analyze"
  }

  /** Flags, each with its gap, and then what is put behind them. */
  ghost function FlagText(fs: seq<Flag>, end: string): string {
    if fs == [] then end else fs[0].word + (Render(fs[0].gap) + FlagText(fs[1..], end))
  }

  lemma {:induction false} FlagTextEnd(fs: seq<Flag>, end: string, tail: string)
    ensures FlagText(fs, end) + tail == FlagText(fs, end + tail)
  {
    if fs != [] {
      FlagTextEnd(fs[1..], end, tail);
      var w, g, m := fs[0].word, Render(fs[0].gap), FlagText(fs[1..], end);
      assert w + (g + m) + tail == w + (g + (m + tail));
    }
  }

  lemma {:induction false} BlankThenFlags(lead: seq<Piece>, text: string)
    requires Blank(lead)
    ensures FlagsThenAnalyze(Render(lead) + text) == FlagsThenAnalyze(text)
  {
    BlankSkipped(lead, text);
  }

  lemma {:induction false} FlagsWritten(fs: seq<Flag>, word: string, rest: string)
    requires AreFlags(fs) && IsAnalyze(word) && Ends(rest)
    ensures FlagsThenAnalyze(FlagText(fs, word + rest))
    decreases |fs|
  {
    if fs == [] {
      WordToken(word, rest);
      FlagsUnfold(word + rest, word, rest);
    } else {
      var f, more := fs[0], FlagText(fs[1..], word + rest);
      assert IsFlag(f) && AreFlags(fs[1..]);
      GapSeparates(f.gap, more);
      WordToken(f.word, Render(f.gap) + more);
      FlagsUnfold(FlagText(fs, word + rest), f.word, Render(f.gap) + more);
      BlankThenFlags(f.gap, more);
      FlagsWritten(fs[1..], word, rest);
    }
  }

  lemma {:induction false} LetterFirst(s: string)
    requires s != [] && Letters(s[..1])
    ensures Strip(s) == s && !At(s, "(", 0)
  {
    assert s[..1][0] == s[0];
    StripOfWord(s);
    assert |s| >= 1 && s[0..1] == [s[0]];
  }

  lemma {:induction false} FlagTextFirst(fs: seq<Flag>, word: string, rest: string)
    requires AreFlags(fs) && IsAnalyze(word)
    ensures var s := FlagText(fs, word + rest); s != [] && Letters(s[..1])
  {
    var s := FlagText(fs, word + rest);
    if fs == [] {
      assert s[..1] == word[..1];
    } else {
      assert IsFlag(fs[0]);
      assert s[..1] == fs[0].word[..1];
    }
  }

  lemma {:induction false} FlagsFollow(gap: seq<Piece>, fs: seq<Flag>, word: string, rest: string)
    requires Blank(gap) && AreFlags(fs) && IsAnalyze(word) && Ends(rest)
    ensures ExplainAnalyze(Render(gap) + FlagText(fs, word + rest))
  {
    var text := FlagText(fs, word + rest);
    BlankSkipped(gap, text);
    FlagTextFirst(fs, word, rest);
    LetterFirst(text);
    FlagsWritten(fs, word, rest);
  }

  /** EXPLAIN, any flags, ANALYZE: a write, whatever statement follows. */
  lemma {:induction false} AnalyzeIsWrite(
    lead: seq<Piece>, explain: string, gap: seq<Piece>, fs: seq<Flag>, analyze: string, rest: string)
    requires Blank(lead) && Letters(explain) && ToLower(explain) == "explain" && Gap(gap)
    requires AreFlags(fs) && IsAnalyze(analyze) && Separated(rest)
    requires Bytes(Render(lead) + (explain + (Render(gap) + FlagText(fs, analyze)))) < KEYWORD_CAP
    ensures KeywordClass(Render(lead) + (explain + (Render(gap) + FlagText(fs, analyze))) + rest).traffic == Write
  {
    var body := explain + (Render(gap) + FlagText(fs, analyze));
    var budget := KEYWORD_CAP - Bytes(Render(lead) + body);
    var tail := Cap(rest, budget);
    CapHead(Render(lead), body, rest);
    CapSeparated(rest, budget);
    FlagTextEnd(fs, analyze, tail);
    var after := Render(gap) + FlagText(fs, analyze + tail);
    Regroup(explain, Render(gap) + FlagText(fs, analyze), tail);
    Regroup(Render(gap), FlagText(fs, analyze), tail);
    GapSeparates(gap, FlagText(fs, analyze + tail));
    assert |explain| == |ToLower(explain)| == 7;
    ExplainClass(Render(lead) + body + rest, lead, explain, after);
    FlagsFollow(gap, fs, analyze, tail);
  }

  // ---------- lists written out ----------

  /** An entry of an option list: a word and a remainder without a comma. */
  datatype Entry = Entry(lead: seq<Piece>, word: string, tail: string)

  ghost predicate IsEntry(e: Entry) {
    && Blank(e.lead) && e.word != [] && Letters(e.word) && ',' !in e.tail
    && (e.tail == [] || IsSpace(e.tail[0]) || e.tail[0] in LIST_STOPS)
  }

  ghost predicate AreEntries(es: seq<Entry>) {
    es != [] && forall i :: 0 <= i < |es| ==> IsEntry(es[i])
  }

  ghost function ListText(es: seq<Entry>): string
    requires es != []
  {
    Render(es[0].lead) + (es[0].word + es[0].tail + (if |es| == 1 then [] else "," + ListText(es[1..])))
  }

  lemma {:induction false} CharAt(s: string, i: nat)
    requires i < |s|
    ensures At(s, ",", i) <==> s[i] == ','
  {
    assert s[i..i + 1] == [s[i]];
  }

  lemma {:induction false} FirstComma(a: string, b: string)
    requires ',' !in a
    ensures IndexOf(a + ("," + b), ",") == |a|
  {
    var s := a + ("," + b);
    CharAt(s, |a|);
    forall i | 0 <= i < |a| ensures !At(s, ",", i) { CharAt(s, i); assert s[i] == a[i]; }
    IndexOfUnique(s, ",", |a|);
  }

  lemma {:induction false} NoComma(a: string)
    requires ',' !in a
    ensures IndexOf(a, ",") == -1
  {
    var k := IndexOf(a, ",");
    if k >= 0 { CharAt(a, k); }
  }

  lemma {:induction false} EntryToken(e: Entry, more: string)
    requires IsEntry(e) && (more == [] || more[0] == ',')
    ensures var s := e.word + e.tail + more;
            && s != [] && Letters(s[..1]) && !At(s, ",", 0) && TokenEnd(s, LIST_STOPS) == |e.word| && s[..|e.word|] == e.word
  {
    var s := e.word + e.tail + more;
    assert s[..1] == e.word[..1] && s[0] == e.word[0];
    CharAt(s, 0);
    Regroup(e.word, e.tail, more);
    TokenOfWord(e.word, e.tail + more, LIST_STOPS);
  }

  /** How the scan sees one entry. */
  lemma {:induction false} EntryScanned(e: Entry, more: string)
    requires IsEntry(e) && (more == [] || more[0] == ',')
    ensures var s := e.word + e.tail + more;
            Strip(Render(e.lead) + s) == s && !At(s, ",", 0) && TokenEnd(s, LIST_STOPS) == |e.word| && s[..|e.word|] == e.word
  {
    var s := e.word + e.tail + more;
    BlankSkipped(e.lead, s);
    EntryToken(e, more);
    StripOfWord(s);
  }

  ghost predicate Named(es: seq<Entry>, target: string) {
    exists k :: 0 <= k < |es| && ToLower(es[k].word) == target
  }

  lemma {:induction false} NamedCons(es: seq<Entry>, target: string)
    requires es != []
    ensures Named(es, target) <==> ToLower(es[0].word) == target || Named(es[1..], target)
  {
    assert forall k :: 1 <= k < |es| ==> es[k] == es[1..][k - 1];
    if Named(es[1..], target) {
      var k :| 0 <= k < |es[1..]| && ToLower(es[1..][k].word) == target;
      assert ToLower(es[k + 1].word) == target;
    }
  }

  lemma {:induction false} NoCommaInEntry(e: Entry)
    requires IsEntry(e)
    ensures ',' !in e.word + e.tail
  {}

  /** A written list contains a word exactly when one of its entries begins with it. */
  lemma {:induction false} ListWritten(es: seq<Entry>, target: string)
    requires AreEntries(es)
    ensures ListContains(Strip(ListText(es)), target) <==> Named(es, target)
    decreases |es|
  {
    var e := es[0];
    assert IsEntry(e);
    NamedCons(es, target);
    NoCommaInEntry(e);
    if |es| == 1 {
      var s := e.word + e.tail + [];
      EntryScanned(e, []);
      NoComma(s);
      ListUnfold(s, target, |e.word|, -1);
    } else {
      var more := "," + ListText(es[1..]);
      var s, k := e.word + e.tail + more, |e.word + e.tail|;
      EntryScanned(e, more);
      FirstComma(e.word + e.tail, ListText(es[1..]));
      ListUnfold(s, target, |e.word|, k);
      assert s[k + 1..] == ListText(es[1..]);
      assert AreEntries(es[1..]);
      ListWritten(es[1..], target);
    }
  }

  /** Open parentheses minus closed ones in the first `k` characters. */
  ghost function Depth(s: string, k: nat): int
    requires k <= |s|
  {
    if k == 0 then 0
    else Depth(s, k - 1) + (if s[k - 1] == '(' then 1 else if s[k - 1] == ')' then -1 else 0)
  }

  ghost predicate Balanced(s: string) {
    Depth(s, |s|) == 0 && forall k :: 0 <= k <= |s| ==> Depth(s, k) >= 0
  }

  lemma {:induction false} ParensScanned(inner: string, s: string, k: nat)
    requires Balanced(inner) && k <= |inner| && |s| >= |inner| + 2 && s[1..|inner| + 1] == inner && s[|inner| + 1] == ')'
    ensures Depth(inner, k) >= 0
    ensures CloseParen(s, 1 + k, (1 + Depth(inner, k)) as nat) == (|inner| + 2, 0)
    decreases |inner| - k
  {
    if k < |inner| {
      assert s[1 + k] == s[1..|inner| + 1][k] == inner[k];
      ParensScanned(inner, s, k + 1);
    }
  }

  lemma {:induction false} ParenStays(s: string)
    requires s != [] && s[0] == '('
    ensures Strip(s) == s && At(s, "(", 0)
  {
    TrimLeftOfTrimmed(s);
    AtPair(s, '-', '-', 0);
    AtPair(s, '/', '*', 0);
    assert s[0..1] == [s[0]];
  }

  lemma {:induction false} ListFound(s: string, inner: string)
    requires s != [] && s[0] == '(' && |s| >= |inner| + 2 && s[1..|inner| + 1] == inner && s[|inner| + 1] == ')' && Balanced(inner)
    requires ListContains(Strip(inner), "analyze")
    ensures ExplainAnalyze(s)
  {
    ParenStays(s);
    ParensScanned(inner, s, 0);
  }

  lemma {:induction false} ListInParens(inner: string, rest: string)
    requires Balanced(inner) && ListContains(Strip(inner), "analyze")
    ensures ExplainAnalyze("(" + inner + ")" + rest)
  {
    var s := "(" + inner + ")" + rest;
    assert s[1..|inner| + 1] == inner;
    ListFound(s, inner);
  }

  lemma {:induction false} ListFollows(gap: seq<Piece>, es: seq<Entry>, rest: string)
    requires Blank(gap) && AreEntries(es) && Balanced(ListText(es)) && Named(es, "analyze")
    ensures ExplainAnalyze(Render(gap) + ("(" + ListText(es) + ")" + rest))
  {
    ListWritten(es, "analyze");
    ListInParens(ListText(es), rest);
    BlankThenOptions(gap, "(" + ListText(es) + ")" + rest);
  }

  lemma {:induction false} BlankThenOptions(gap: seq<Piece>, s: string)
    requires Blank(gap)
    ensures ExplainAnalyze(Render(gap) + s) == ExplainAnalyze(s)
  {
    BlankSkipped(gap, s);
    SameOptions(Render(gap) + s, s);
  }

  lemma {:induction false} SameOptions(a: string, b: string)
    requires Strip(a) == Strip(b)
    ensures ExplainAnalyze(a) == ExplainAnalyze(b)
  {}

  /** EXPLAIN with a parenthesised list, balanced and within the cap, one entry of which begins
      with ANALYZE: a write. */
  lemma {:induction false} AnalyzeInListIsWrite(
    lead: seq<Piece>, explain: string, gap: seq<Piece>, es: seq<Entry>, rest: string)
    requires Blank(lead) && Letters(explain) && ToLower(explain) == "explain" && (gap == [] || Gap(gap))
    requires AreEntries(es) && Balanced(ListText(es)) && Named(es, "analyze")
    requires Bytes(Render(lead) + (explain + (Render(gap) + ("(" + ListText(es) + ")")))) <= KEYWORD_CAP
    ensures KeywordClass(Render(lead) + (explain + (Render(gap) + ("(" + ListText(es) + ")"))) + rest).traffic == Write
  {
    var list := "(" + ListText(es) + ")";
    var body := explain + (Render(gap) + list);
    var tail := Cap(rest, KEYWORD_CAP - Bytes(Render(lead) + body));
    CapHead(Render(lead), body, rest);
    var after := Render(gap) + (list + tail);
    Regroup(explain, Render(gap) + list, tail);
    Regroup(Render(gap), list, tail);
    ListEnds(gap, list + tail);
    assert |explain| == |ToLower(explain)| == 7;
    ExplainClass(Render(lead) + body + rest, lead, explain, after);
    ListFollows(gap, es, tail);
  }

  lemma {:induction false} ListEnds(gap: seq<Piece>, s: string)
    requires (gap == [] || Gap(gap)) && s != [] && s[0] == '('
    ensures Ends(Render(gap) + s)
  {
    if gap == [] { assert Render(gap) + s == s; } else { GapSeparates(gap, s); }
  }

  // ---------- beyond the cap ----------

  /** Blanks that fill the 64 bytes hide whatever follows: the text counts as a write. */
  lemma {:induction false} BlanksFillTheCap(lead: seq<Piece>, rest: string)
    requires Blank(lead) && Bytes(Render(lead)) == 64
    ensures KeywordClass(Render(lead) + rest) == Class(Write, FromDefault)
  {
    CapKeeps(Render(lead), rest, KEYWORD_CAP);
    assert Cap(rest, 0) == [];
    BlankSkipped(lead, []);
    NothingLeft([]);
  }

  lemma {:induction false} NothingLeft(s: string)
    requires s == []
    ensures Strip(s) == [] && KeywordOf(Strip(s)) == ("", false)
  {
    StripResult(s);
  }
}
