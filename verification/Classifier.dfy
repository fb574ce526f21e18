/** Read/write classification of SQL text by its first keyword, the transaction-boundary
    tests of the compat port, and the detector of session-level state. */
module Classifier {
  import opened Scanner

  datatype Traffic = Read | Write | Unknown
  datatype Source = FromPort | FromTransaction | FromKeyword | FromDefault
  datatype Class = Class(traffic: Traffic, source: Source)
  datatype TxState = Idle | InRead | InWrite | InFailed

  const READ_KEYWORDS: set<string> := {"select", "show", "explain", "fetch", "values"}
  const EXPLAIN_FLAGS: set<string> :=
    {"verbose", "costs", "buffers", "timing", "summary", "format", "settings", "wal"}
  const KEYWORD_CAP := 64

  // ---------- text ----------

  /** Lower case, exact on every character that can lower to an ASCII letter. */
  function LowerChar(c: char): char {
    if 'A' <= c <= 'Z' then (c as int + 32) as char
    else if c as int == 0x130 then 'i'
    else if c as int == 0x212A then 'k'
    else c
  }

  function ToLower(s: string): string {
    seq(|s|, i requires 0 <= i < |s| => LowerChar(s[i]))
  }

  /** Bytes of a character in UTF-8. */
  function Width(c: char): nat {
    var u := c as int;
    if u < 0x80 then 1 else if u < 0x800 then 2 else if u < 0x10000 then 3 else 4
  }

  /** The first `budget` bytes of `s`; the bytes of a character cut in two decode one by
      one to the replacement character. */
  function Cap(s: string, budget: nat): string {
    if s == [] then []
    else if Width(s[0]) <= budget then [s[0]] + Cap(s[1..], budget - Width(s[0]))
    else seq(budget, i => '\U{FFFD}')
  }

  /** Length of the leading token: everything before white space or one of `stops`. */
  function TokenEnd(s: string, stops: set<char>): (n: nat)
    ensures n <= |s|
    ensures n < |s| ==> IsSpace(s[n]) || s[n] in stops
    ensures forall i :: 0 <= i < n ==> !IsSpace(s[i]) && s[i] !in stops
  {
    if s == [] || IsSpace(s[0]) || s[0] in stops then 0 else 1 + TokenEnd(s[1..], stops)
  }

  // ---------- the first keyword ----------

  function FirstKeyword(sql: string): (r: (string, bool)) {
    KeywordOf(Strip(Cap(sql, KEYWORD_CAP)))
  }

  function KeywordOf(s: string): (r: (string, bool)) {
    var n := TokenEnd(s, {'(', ';'});
    if n == 0 then ("", false) else KeywordAt(ToLower(s[..n]), s[n..])
  }

  function KeywordAt(first: string, after: string): (r: (string, bool)) {
    (first, first == "explain" && ExplainAnalyze(after))
  }

  /** Position just after the parenthesis that closes `depth` open ones, or the end. */
  function CloseParen(s: string, i: nat, depth: nat): (r: (nat, nat))
    requires i <= |s|
    ensures i <= r.0 <= |s|
    ensures depth > 0 && r.1 == 0 ==> i < r.0
    decreases |s| - i
  {
    if i == |s| || depth == 0 then (i, depth)
    else CloseParen(s, i + 1, if s[i] == '(' then depth + 1 else if s[i] == ')' then depth - 1 else depth)
  }

  /** ANALYZE among the options that follow EXPLAIN. */
  function ExplainAnalyze(after: string): bool {
    AnalyzeIn(Strip(after))
  }

  function AnalyzeIn(s: string): bool {
    if At(s, "(", 0) then
      var (i, depth) := CloseParen(s, 1, 1);
      if depth == 0 then ListContains(Strip(s[1..i - 1]), "analyze") || FlagsThenAnalyze(s[i..])
      else FlagsThenAnalyze(s)
    else FlagsThenAnalyze(s)
  }

  function FlagsThenAnalyze(text: string): bool
    decreases |text|
  {
    StripResult(text);
    var s := Strip(text);
    var n := TokenEnd(s, {'(', ';'});
    if n == 0 then false
    else
      var tok := ToLower(s[..n]);
      tok == "analyze" || (tok in EXPLAIN_FLAGS && FlagsThenAnalyze(s[n..]))
  }

  function ListContains(s: string, target: string): bool
    decreases |s|
  {
    if At(s, ",", 0) then
      StripResult(s[1..]);
      ListContains(Strip(s[1..]), target)
    else
      var n := TokenEnd(s, {',', '(', ')'});
      if n == 0 then false
      else if ToLower(s[..n]) == target then true
      else
        var k := IndexOf(s, ",");
        if k < 0 then false
        else
          StripResult(s[k + 1..]);
          ListContains(Strip(s[k + 1..]), target)
  }

  method ScanParens(s: string) returns (i: nat, depth: nat)
    requires s != ""
    ensures (i, depth) == CloseParen(s, 1, 1)
  {
    depth, i := 1, 1;
    while i < |s| && depth > 0
      invariant 1 <= i <= |s|
      invariant CloseParen(s, 1, 1) == CloseParen(s, i, depth)
    {
      if s[i] == '(' { depth := depth + 1; }
      else if s[i] == ')' { depth := depth - 1; }
      i := i + 1;
    }
  }

  method ExplainHasAnalyze(afterExplain: string) returns (found: bool)
    ensures found == ExplainAnalyze(afterExplain)
  {
    var s := StripCommentsAndWhitespace(afterExplain);
    if At(s, "(", 0) {
      var i, depth := ScanParens(s);
      if depth == 0 {
        found := TokenListContains(s[1..i - 1], "analyze");
        if found { return; }
        FlagsAfterStrip(s[i..]);
        s := StripCommentsAndWhitespace(s[i..]);
      }
    }
    found := ScanFlags(s);
  }

  lemma {:induction false} FlagsAfterStrip(s: string)
    ensures FlagsThenAnalyze(Strip(s)) == FlagsThenAnalyze(s)
  {
    StripIdempotent(s);
  }

  method ScanFlags(text: string) returns (found: bool)
    ensures found == FlagsThenAnalyze(text)
  {
    var s := text;
    found := false;
    while true
      invariant FlagsThenAnalyze(text) == FlagsThenAnalyze(s)
      decreases |s|
    {
      StripResult(s);
      s := StripCommentsAndWhitespace(s);
      var idx := TokenEnd(s, {'(', ';'});
      if s == "" || idx == 0 { return; }
      var tok := ToLower(s[..idx]);
      if tok == "analyze" { return true; }
      if tok !in EXPLAIN_FLAGS { return; }
      s := s[idx..];
    }
  }

  method TokenListContains(list: string, target: string) returns (found: bool)
    ensures found == ListContains(Strip(list), target)
  {
    var s := StripCommentsAndWhitespace(list);
    found := false;
    while s != ""
      invariant ListContains(Strip(list), target) == ListContains(s, target)
      decreases |s|
    {
      var from := 1;
      if !At(s, ",", 0) {
        var idx := TokenEnd(s, {',', '(', ')'});
        if idx == 0 { return; }
        if ToLower(s[..idx]) == target { return true; }
        var comma := IndexOf(s, ",");
        if comma < 0 { return; }
        from := comma + 1;
      }
      StripResult(s[from..]);
      s := StripCommentsAndWhitespace(s[from..]);
    }
  }

  // ---------- classification ----------

  /** `classifyByKeyword`. Never Unknown. */
  function KeywordClass(sql: string): (c: Class)
    ensures c.traffic != Unknown
  {
    var (keyword, analyze) := FirstKeyword(sql);
    if keyword == "" then Class(Write, FromDefault)
    else if analyze || keyword !in READ_KEYWORDS then Class(Write, FromKeyword)
    else Class(Read, FromKeyword)
  }

  /** Messages without SQL are classified by the empty text: a write. */
  lemma {:induction false} EmptyIsWrite(sql: string)
    requires |sql| == 0
    ensures KeywordClass(sql) == Class(Write, FromDefault)
  {
    assert Cap(sql, KEYWORD_CAP) == sql;
    StripResult(sql);
  }

  /** `Classify` on a port other than the write port, given the keyword class of the text:
      the class and the updated cache of named prepared statements. */
  function ClassifyText(tx: TxState, prepared: map<string, Class>, name: string, keyword: Class)
    : (r: (Class, map<string, Class>))
  {
    if tx == InWrite then (Class(Write, FromTransaction), prepared)
    else if name != "" && name in prepared then (prepared[name], prepared)
    else (keyword, if name == "" then prepared else prepared[name := keyword])
  }

  // ---------- transaction boundaries and session state ----------

  predicate BoundaryWord(sql: string, word: string) {
    var s := TrimSpace(ToLower(sql));
    s == word || At(s, word + " ", 0)
  }

  predicate IsTransactionStart(sql: string) {
    BoundaryWord(sql, "begin") || BoundaryWord(sql, "start transaction")
  }

  predicate IsCommit(sql: string) {
    BoundaryWord(sql, "commit")
  }

  predicate IsRollback(sql: string) {
    BoundaryWord(sql, "rollback")
  }

  /** One statement of a query string that needs session-level pooling. */
  predicate StatementPins(part: string) {
    var stmt := TrimSpace(part);
    stmt != "" && PinsLowered(ToLower(StripLeading(stmt)))
  }

  predicate PinsLowered(normalized: string) {
    (At(normalized, "set ", 0) && !At(normalized, "set local", 0)) || At(normalized, "prepare ", 0)
  }

  function Split(s: string, sep: char): (parts: seq<string>)
    ensures parts != []
  {
    if s == [] then [[]]
    else
      var rest := Split(s[1..], sep);
      if s[0] == sep then [[]] + rest else [[s[0]] + rest[0]] + rest[1..]
  }

  predicate UsesSessionState(query: string) {
    SomePins(Split(query, ';'))
  }

  predicate SomePins(parts: seq<string>) {
    exists i :: 0 <= i < |parts| && StatementPins(parts[i])
  }

  // ---------- what the first word decides ----------

  ghost predicate Letters(s: string) {
    forall i :: 0 <= i < |s| ==> 'a' <= s[i] <= 'z' || 'A' <= s[i] <= 'Z'
  }

  ghost predicate LowerCase(s: string) {
    forall i :: 0 <= i < |s| ==> 'a' <= s[i] <= 'z'
  }

  /** What may follow the first word: nothing, or an ASCII character that ends a token. */
  ghost predicate Separated(rest: string) {
    rest == [] || (Width(rest[0]) == 1 && (IsSpace(rest[0]) || rest[0] in {'(', ';'}))
  }

  lemma {:induction false} CapStep(c: char, u: string, budget: nat)
    requires Width(c) <= budget
    ensures Cap([c] + u, budget) == [c] + Cap(u, budget - Width(c))
  {
    assert ([c] + u)[1..] == u;
  }

  lemma {:induction false} FirstOff(s: string, rest: string)
    requires s != []
    ensures s + rest == [s[0]] + (s[1..] + rest)
  {}

  lemma {:induction false} CapOfWord(word: string, rest: string, budget: nat)
    requires Letters(word) && |word| <= budget
    ensures Cap(word + rest, budget) == word + Cap(rest, budget - |word|)
  {
    if word == [] {
      assert word + rest == rest;
    } else {
      FirstOff(word, rest);
      FirstOff(word, Cap(rest, budget - |word|));
      CapStep(word[0], word[1..] + rest, budget);
      CapOfWord(word[1..], rest, budget - 1);
    }
  }

  lemma {:induction false} StripOfWord(s: string)
    requires s != [] && Letters(s[..1])
    ensures Strip(s) == s
  {
    assert s[..1][0] == s[0];
    TrimLeftOfTrimmed(s);
    AtPair(s, '-', '-', 0);
    AtPair(s, '/', '*', 0);
  }

  lemma {:induction false} TokenOfWord(word: string, tail: string, stops: set<char>)
    requires forall i :: 0 <= i < |word| ==> !IsSpace(word[i]) && word[i] !in stops
    requires tail == [] || IsSpace(tail[0]) || tail[0] in stops
    ensures TokenEnd(word + tail, stops) == |word|
  {
    var s := word + tail;
    assert forall i :: 0 <= i < |word| ==> s[i] == word[i];
    assert tail != [] ==> s[|word|] == tail[0];
  }

  lemma {:induction false} KeywordOfWord(word: string, tail: string)
    requires word != [] && Letters(word) && Separated(tail)
    ensures Strip(word + tail) == word + tail && TokenEnd(word + tail, {'(', ';'}) == |word|
  {
    assert (word + tail)[..1] == word[..1];
    StripOfWord(word + tail);
    TokenOfWord(word, tail, {'(', ';'});
  }

  /** Text that begins with a word, EXPLAIN apart, is classified by that word alone, whatever
      follows: the statements after it in a batch are not looked at. */
  lemma {:induction false} FirstWordDecides(word: string, rest: string)
    requires word != [] && |word| < KEYWORD_CAP && Letters(word) && Separated(rest) && ToLower(word) != "explain"
    ensures KeywordClass(word + rest) ==
            Class(if ToLower(word) in {"select", "show", "fetch", "values"} then Read else Write, FromKeyword)
  {
    var tail := Cap(rest, KEYWORD_CAP - |word|);
    CapOfWord(word, rest, KEYWORD_CAP);
    KeywordOfWord(word, tail);
    assert (word + tail)[..|word|] == word;
    assert |ToLower(word)| == |word|;
  }

  // ---------- boundary words ----------

  /** Lower case already, and nothing to trim. */
  ghost predicate Phrase(word: string) {
    && word != [] && !IsSpace(word[0]) && !IsSpace(word[|word| - 1])
    && forall i :: 0 <= i < |word| ==> LowerChar(word[i]) == word[i]
  }

  lemma {:induction false} WordIsPhrase(word: string)
    requires word != [] && LowerCase(word)
    ensures Phrase(word)
  {}

  ghost predicate StartsWithWord(low: string, word: string) {
    |word| < |low| && low[|word|] == ' ' && forall i :: 0 <= i < |word| ==> low[i] == word[i]
  }

  lemma {:induction false} LoweredWord(word: string, rest: string)
    requires Phrase(word)
    ensures StartsWithWord(ToLower(word + " " + rest), word)
  {}

  lemma {:induction false} TrimmedEnd(word: string, low: string)
    requires Phrase(word) && StartsWithWord(low, word)
    ensures var s := TrimRight(low); s == word || |word| + 1 < |s|
  {
    var s := TrimRight(low);
    assert low[|word| - 1] == word[|word| - 1] && |word| <= |s|;
    assert s[|s| - 1] == low[|s| - 1];
    assert |s| == |word| ==> s == word;
  }

  lemma {:induction false} TrimmedLow(word: string, low: string)
    requires Phrase(word) && StartsWithWord(low, word)
    ensures TrimSpace(low) == word || At(TrimSpace(low), word + " ", 0)
  {
    assert low[0] == word[0];
    TrimLeftOfTrimmed(low);
    TrimmedEnd(word, low);
    if TrimRight(low) != word { PrefixSeen(word, low, TrimRight(low)); }
  }

  lemma {:induction false} PrefixSeen(word: string, low: string, s: string)
    requires StartsWithWord(low, word) && s <= low && |word| + 1 < |s|
    ensures At(s, word + " ", 0)
  {
    assert s[0..|word| + 1] == word + " ";
  }

  /** The trimmed, lowered form of text that begins with a phrase begins with that phrase. */
  lemma {:induction false} TrimmedWord(word: string, rest: string)
    requires Phrase(word)
    ensures var s := TrimSpace(ToLower(word + " " + rest)); s == word || At(s, word + " ", 0)
  {
    LoweredWord(word, rest);
    TrimmedLow(word, ToLower(word + " " + rest));
  }

  /** Boundary words are recognised whatever follows them, further statements included. */
  lemma {:induction false} BoundaryBatch(word: string, rest: string)
    requires Phrase(word)
    ensures BoundaryWord(word + " " + rest, word)
  {
    TrimmedWord(word, rest);
  }

  lemma {:induction false} HeadOf(s: string, word: string)
    requires s == word || At(s, word + " ", 0)
    ensures |word| <= |s| && s[..|word|] == word && (|word| < |s| ==> s[|word|] == ' ')
  {
    if s != word {
      assert s[..|word|] == s[0..|word + " "|][..|word|] == (word + " ")[..|word|] == word;
      assert s[|word|] == s[0..|word + " "|][|word|] == ' ';
    }
  }

  /** Recognised text begins with the boundary word, and only a space may follow. */
  lemma {:induction false} BoundaryHead(sql: string, word: string)
    requires BoundaryWord(sql, word)
    ensures var s := TrimSpace(ToLower(sql));
            |word| <= |s| && s[..|word|] == word && (|word| < |s| ==> s[|word|] == ' ')
  {
    HeadOf(TrimSpace(ToLower(sql)), word);
  }

  lemma {:induction false} SameHead(s: string, a: string, b: string)
    requires |a| <= |s| && s[..|a|] == a && (|a| < |s| ==> s[|a|] == ' ') && ' ' !in a
    requires |b| <= |s| && s[..|b|] == b && (|b| < |s| ==> s[|b|] == ' ') && ' ' !in b
    ensures a == b
  {
    assert forall i :: 0 <= i < |a| ==> s[i] == s[..|a|][i] == a[i];
    assert forall i :: 0 <= i < |b| ==> s[i] == s[..|b|][i] == b[i];
  }

  /** Text that begins with a word is taken for a one-word boundary exactly when the word is
      that one. */
  lemma {:induction false} BoundaryExactly(word: string, rest: string, target: string)
    requires word != [] && LowerCase(word) && target != [] && LowerCase(target)
    ensures BoundaryWord(word + " " + rest, target) <==> word == target
  {
    var sql := word + " " + rest;
    WordIsPhrase(word);
    BoundaryBatch(word, rest);
    if BoundaryWord(sql, target) {
      BoundaryHead(sql, word);
      BoundaryHead(sql, target);
      SameHead(TrimSpace(ToLower(sql)), word, target);
    }
  }

  /** Text that begins with some other word is not taken for a boundary phrase. */
  lemma {:induction false} OtherWord(word: string, rest: string, other: string)
    requires word != [] && LowerCase(word)
    requires exists i :: 0 <= i < |word| && i < |other| && word[i] != other[i]
    ensures !BoundaryWord(word + " " + rest, other)
  {
    var sql := word + " " + rest;
    WordIsPhrase(word);
    TrimmedWord(word, rest);
    BoundaryHead(sql, word);
    if BoundaryWord(sql, other) { BoundaryHead(sql, other); }
  }

  /** COMMIT text is the text that begins with that word and no other. */
  lemma {:induction false} CommitExactly(word: string, rest: string)
    requires word != [] && LowerCase(word)
    ensures IsCommit(word + " " + rest) <==> word == "commit"
  {
    BoundaryExactly(word, rest, "commit");
  }

  lemma {:induction false} RollbackExactly(word: string, rest: string)
    requires word != [] && LowerCase(word)
    ensures IsRollback(word + " " + rest) <==> word == "rollback"
  {
    BoundaryExactly(word, rest, "rollback");
  }

  /** A transaction starts with BEGIN or START TRANSACTION. */
  lemma {:induction false} StartExactly(word: string, rest: string)
    requires word != [] && LowerCase(word)
    ensures word == "begin" ==> IsTransactionStart(word + " " + rest)
    ensures IsTransactionStart(word + " " + rest) ==> word == "begin" || (|word| >= 2 && word[0] == 's' && word[1] == 't')
  {
    var start := "start transaction";
    assert start[0] == 's' && start[1] == 't';
    BoundaryExactly(word, rest, "begin");
    PhraseStarts(word, rest, start);
  }

  lemma {:induction false} PhraseStarts(word: string, rest: string, phrase: string)
    requires word != [] && LowerCase(word) && |phrase| >= 2 && phrase[1] != ' '
    ensures BoundaryWord(word + " " + rest, phrase) ==> |word| >= 2 && word[0] == phrase[0] && word[1] == phrase[1]
  {
    if |word| < 2 {
      ShortWord(word, rest, phrase);
    } else if word[0] != phrase[0] || word[1] != phrase[1] {
      OtherWord(word, rest, phrase);
    }
  }

  lemma {:induction false} StartTransactionStarts(start: string, rest: string)
    requires start == "start transaction"
    ensures IsTransactionStart(start + " " + rest)
  {
    BoundaryBatch(start, rest);
  }

  lemma {:induction false} ShortWord(word: string, rest: string, other: string)
    requires |word| == 1 && LowerCase(word) && |other| >= 2 && other[1] != ' '
    ensures !BoundaryWord(word + " " + rest, other)
  {
    var sql := word + " " + rest;
    WordIsPhrase(word);
    BoundaryBatch(word, rest);
    BoundaryHead(sql, word);
    if BoundaryWord(sql, other) { BoundaryHead(sql, other); }
  }

  // ---------- single statements ----------

  /** Nothing but white space follows the first semicolon-separated statement. */
  ghost predicate Single(sql: string) {
    forall i :: 1 <= i < |Split(sql, ';')| ==> TrimSpace(Split(sql, ';')[i]) == ""
  }

  lemma {:induction false} SplitFirst(a: string, b: string, sep: char)
    requires sep !in a
    ensures Split(a + [sep] + b, sep) == [a] + Split(b, sep)
  {
    var s := a + [sep] + b;
    if a == [] {
      assert s[0] == sep && s[1..] == b;
    } else {
      assert s[0] == a[0] && s[1..] == a[1..] + [sep] + b;
      SplitFirst(a[1..], b, sep);
      assert a == [a[0]] + a[1..];
    }
  }

  lemma {:induction false} SplitHead(b: string, sep: char)
    requires b != [] && b[0] != sep
    ensures Split(b, sep)[0] != [] && Split(b, sep)[0][0] == b[0]
  {}

  /** A batch is not a single statement. */
  lemma {:induction false} BatchNotSingle(a: string, b: string)
    requires ';' !in a && b != [] && !IsSpace(b[0]) && b[0] != ';'
    ensures !Single(a + ";" + b)
  {
    SplitFirst(a, b, ';');
    SplitHead(b, ';');
    var parts := Split(a + ";" + b, ';');
    assert parts[1] == Split(b, ';')[0];
    TrimLeftOfTrimmed(parts[1]);
    assert TrimSpace(parts[1]) != "";
  }
}
