/** EXPLAIN ANALYZE and replicas: text that would execute a statement goes out on no replica
    lease, in no run. */
module ExplainSafety {
  import opened Options
  import opened Scanner
  import opened Classifier
  import opened Explain
  import opened Topology
  import opened Routing
  import opened Session
  import SessionSafety

  /** Behind any blanks, the first character to show is the text's own or begins a comment. */
  lemma {:induction false} ShownFirst(lead: seq<Piece>, x: string)
    requires Blank(lead) && x != [] && !IsSpace(LowerChar(x[0]))
    ensures var s := TrimLeft(ToLower(Render(lead) + x)); s != [] && s[0] in {'-', '/', LowerChar(x[0])}
  {
    if lead == [] {
      assert Render(lead) + x == x;
      TrimLeftOfTrimmed(ToLower(x));
    } else {
      assert Proper(lead[0]);
      var rest := Render(lead[1..]) + x;
      var s := Show(lead[0]) + rest;
      assert Render(lead) + x == s;
      if lead[0].Space? {
        assert ToLower(s) == [lead[0].c] + ToLower(rest);
        TrimLeftPrepend([lead[0].c], ToLower(rest));
        ShownFirst(lead[1..], x);
      } else {
        assert ToLower(s)[0] == s[0] && s[0] in {'-', '/'};
        TrimLeftOfTrimmed(ToLower(s));
      }
    }
  }

  lemma {:induction false} FirstKept(s: string)
    requires TrimLeft(s) != []
    ensures TrimSpace(s) != [] && TrimSpace(s)[0] == TrimLeft(s)[0]
  {}

  lemma {:induction false} NotBoundary(lead: seq<Piece>, x: string, word: string)
    requires Blank(lead) && x != [] && !IsSpace(LowerChar(x[0])) && word != []
    requires word[0] !in {'-', '/', LowerChar(x[0])}
    ensures !BoundaryWord(Render(lead) + x, word)
  {
    var sql := Render(lead) + x;
    ShownFirst(lead, x);
    FirstKept(ToLower(sql));
    if BoundaryWord(sql, word) { BoundaryHead(sql, word); }
  }

  /** The analysis of a text, mentioned only where it is needed. */
  ghost predicate TextOf(text: Text, sql: string) {
    forall q :: q == sql ==> text == Analyze(q)
  }

  lemma {:induction false} ExplainIsNoBoundary(text: Text, lead: seq<Piece>, word: string, rest: string)
    requires TextOf(text, Render(lead) + (word + rest)) && Blank(lead) && |word| == 7 && Letters(word) && ToLower(word) == "explain"
    ensures !text.start && !text.commit && !text.rollback
  {
    var x, sql := word + rest, Render(lead) + (word + rest);
    assert ToLower(word)[0] == LowerChar(word[0]) && LowerChar(x[0]) == 'e';
    var begin, start, commit, rollback := "begin", "start transaction", "commit", "rollback";
    assert begin[0] == 'b' && start[0] == 's' && commit[0] == 'c' && rollback[0] == 'r';
    NotBoundary(lead, x, begin);
    NotBoundary(lead, x, start);
    NotBoundary(lead, x, commit);
    NotBoundary(lead, x, rollback);
    Attributes(text, sql);
  }

  lemma {:induction false} Attributes(text: Text, sql: string)
    requires TextOf(text, sql)
    ensures text.sql == sql && text.keyword == KeywordClass(sql)
    ensures text.start == IsTransactionStart(sql) && text.commit == IsCommit(sql) && text.rollback == IsRollback(sql)
  {
    assert text == Analyze(sql);
  }

  /** In every run, a Query or unnamed Parse of EXPLAIN text that classifies as a write, which
      it does exactly with ANALYZE among its options, goes out on no replica lease. */
  lemma {:induction false} ExplainStaysOff(
    w: SessionSafety.World, ins: seq<SessionSafety.Input>, i: SessionSafety.Input, text: Text,
    lead: seq<Piece>, word: string, rest: string, replayed: bool)
    requires SessionSafety.Init(w) && SessionSafety.Run(w, ins) && SessionSafety.Possible(SessionSafety.End(w, ins), i)
    requires i.FromClient? && i.msg in {Query(text), Parse("", text)} && TextOf(text, Render(lead) + (word + rest))
    requires Blank(lead) && |word| == 7 && Letters(word) && ToLower(word) == "explain" && text.keyword.traffic == Write
    ensures ToUpstream(i.msg, Replica, replayed) !in SessionSafety.Do(SessionSafety.End(w, ins).sess, i).out
  {
    ExplainIsNoBoundary(text, lead, word, rest);
    SessionSafety.WriteStaysOff(w, ins, i, replayed);
  }

  /** So EXPLAIN, any flags, ANALYZE and any statement. */
  lemma {:induction false} ExplainAnalyzeStaysOff(
    w: SessionSafety.World, ins: seq<SessionSafety.Input>, i: SessionSafety.Input, text: Text,
    lead: seq<Piece>, explain: string, gap: seq<Piece>, fs: seq<Flag>, analyze: string, rest: string, replayed: bool)
    requires SessionSafety.Init(w) && SessionSafety.Run(w, ins) && SessionSafety.Possible(SessionSafety.End(w, ins), i)
    requires i.FromClient? && i.msg in {Query(text), Parse("", text)}
    requires TextOf(text, Render(lead) + (explain + (Render(gap) + FlagText(fs, analyze))) + rest)
    requires Blank(lead) && |explain| == 7 && Letters(explain) && ToLower(explain) == "explain" && Gap(gap)
    requires AreFlags(fs) && IsAnalyze(analyze) && Separated(rest)
    requires Bytes(Render(lead) + (explain + (Render(gap) + FlagText(fs, analyze)))) < KEYWORD_CAP
    ensures ToUpstream(i.msg, Replica, replayed) !in SessionSafety.Do(SessionSafety.End(w, ins).sess, i).out
  {
    var options := Render(gap) + FlagText(fs, analyze);
    AnalyzeIsWrite(lead, explain, gap, fs, analyze, rest);
    Attributes(text, Render(lead) + (explain + options) + rest);
    Regroup(Render(lead), explain + options, rest);
    Regroup(explain, options, rest);
    ExplainStaysOff(w, ins, i, text, lead, explain, options + rest, replayed);
  }
}
