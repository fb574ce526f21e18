/** Which text pins a session to its connection: a statement, anywhere in the query string and
    behind any comments, that begins with SET, but not SET LOCAL, or with PREPARE. */
module Pinning {
  import opened Scanner
  import opened Classifier
  import opened Explain

  // ---------- batches ----------

  lemma {:induction false} SplitAlone(a: string, sep: char)
    requires sep !in a
    ensures Split(a, sep) == [a]
  {
    if a != [] {
      SplitAlone(a[1..], sep);
      assert [a[0]] + a[1..] == a;
      assert Split(a, sep) == [[a[0]] + a[1..]] + [];
    }
  }

  lemma {:induction false} SomeCons(a: string, parts: seq<string>)
    ensures SomePins([a] + parts) <==> StatementPins(a) || SomePins(parts)
  {
    var all := [a] + parts;
    assert all[0] == a && forall i :: 0 <= i < |parts| ==> all[i + 1] == parts[i];
    if SomePins(parts) {
      var i :| 0 <= i < |parts| && StatementPins(parts[i]);
      assert StatementPins(all[i + 1]);
    }
    if SomePins(all) && !StatementPins(a) {
      var i :| 0 <= i < |all| && StatementPins(all[i]);
      assert all[i] == parts[i - 1];
    }
  }

  /** A query string pins exactly when one of its statements does: the first, or one behind
      the semicolon. */
  lemma {:induction false} BatchPins(a: string, b: string)
    requires ';' !in a
    ensures UsesSessionState(a) <==> StatementPins(a)
    ensures UsesSessionState(a + ";" + b) <==> StatementPins(a) || UsesSessionState(b)
  {
    SplitAlone(a, ';');
    SplitFirst(a, b, ';');
    SomeCons(a, Split(b, ';'));
    SomeCons(a, []);
    assert [a] + [] == [a];
  }

  // ---------- one statement ----------

  lemma {:induction false} TrimSpaceTwice(s: string)
    ensures TrimSpace(TrimSpace(s)) == TrimSpace(s)
  {
    TrimLeftOfTrimmed(TrimSpace(s));
    TrimRightTwice(TrimLeft(s));
  }

  lemma {:induction false} SameLeading(a: string, b: string)
    requires TrimSpace(a) == TrimSpace(b)
    ensures StripLeading(a) == StripLeading(b)
  {}

  /** What is left of a statement once blanks and comments ahead of it are gone. */
  lemma {:induction false} Laid(lead: seq<Piece>, word: string, rest: string)
    requires Blank(lead) && word != [] && Letters(word) && TrimRight(rest) != []
    ensures StripLeading(TrimSpace(Render(lead) + (word + " " + rest))) == word + " " + TrimRight(rest)
  {
    var x := word + " " + rest;
    var part := Render(lead) + x;
    TrimSpaceTwice(part);
    SameLeading(TrimSpace(part), part);
    StripLeadingIsStrip(part);
    BlankSkipped(lead, x);
    assert x[..1] == word[..1];
    StripOfWord(x);
    TrimRightAppend(word + " ", rest);
  }

  lemma {:induction false} EmptyStays(s: string)
    requires s == []
    ensures StripLeading(s) == []
  {
    StripLeadingIsStrip(s);
    StripResult(s);
  }

  lemma {:induction false} LowerJoin(word: string, tail: string)
    ensures ToLower(word + " " + tail) == ToLower(word) + " " + ToLower(tail)
  {}

  /** The lowered text begins with a word and a space exactly when the word is that one. */
  lemma {:induction false} BeginsWith(word: string, tail: string, target: string)
    requires Letters(word) && LowerCase(target)
    ensures At(ToLower(word) + " " + tail, target + " ", 0) <==> ToLower(word) == target
  {
    var low := ToLower(word);
    var s, t := low + " " + tail, target + " ";
    assert |low| == |word| && s[|word|] == ' ' && t[|target|] == ' ';
    if At(s, t, 0) {
      assert forall i :: 0 <= i < |t| ==> s[i] == s[0..|t|][i] == t[i];
      assert forall i :: 0 <= i < |target| ==> t[i] == target[i] != ' ';
      assert forall i :: 0 <= i < |word| ==> s[i] == low[i] != ' ';
      assert |word| == |target|;
      assert forall i :: 0 <= i < |word| ==> low[i] == s[i] == t[i] == target[i];
    }
    if low == target { assert s[0..|t|] == t; }
  }

  lemma {:induction false} Beyond(head: string, tail: string, more: string)
    ensures At(head + tail, head + more, 0) <==> At(tail, more, 0)
  {
    var s, t := head + tail, head + more;
    if At(tail, more, 0) { assert s[0..|t|] == head + tail[0..|more|]; }
    if At(s, t, 0) {
      assert tail[0..|more|] == s[0..|t|][|head|..];
      assert t[|head|..] == more;
    }
  }

  lemma {:induction false} TrimmedPrefix(rest: string, more: string)
    requires LowerCase(more)
    ensures At(ToLower(TrimRight(rest)), more, 0) <==> At(ToLower(rest), more, 0)
  {
    var r, low, lowr := TrimRight(rest), ToLower(rest), ToLower(TrimRight(rest));
    assert forall i :: 0 <= i < |r| ==> lowr[i] == low[i];
    if At(low, more, 0) && more != [] {
      var k := |more| - 1;
      assert low[k] == low[0..|more|][k] == more[k];
      assert !IsSpace(rest[k]);
      assert |more| <= |r|;
      assert lowr[0..|more|] == low[0..|more|];
    }
    if At(lowr, more, 0) { assert lowr[0..|more|] == low[0..|more|]; }
  }

  /** A statement of a word and more, behind any blanks and in any letter case, pins exactly
      when it is SET with something other than LOCAL, or PREPARE. */
  lemma {:induction false} StatementPinsExactly(lead: seq<Piece>, word: string, rest: string)
    requires Blank(lead) && word != [] && Letters(word) && TrimRight(rest) != []
    ensures StatementPins(Render(lead) + (word + " " + rest)) <==> SetsState(word, rest)
  {
    Laid(lead, word, rest);
    PinsIfLaid(Render(lead) + (word + " " + rest), word + " " + TrimRight(rest));
    LaidPins(word, rest);
  }

  ghost predicate SetsState(word: string, rest: string) {
    (ToLower(word) == "set" && !At(ToLower(rest), "local", 0)) || ToLower(word) == "prepare"
  }

  lemma {:induction false} LaidPins(word: string, rest: string)
    requires Letters(word)
    ensures PinsLowered(ToLower(word + " " + TrimRight(rest))) <==> SetsState(word, rest)
  {
    LowerJoin(word, TrimRight(rest));
    LoweredPins(word, TrimRight(rest));
    TrimmedPrefix(rest, "local");
  }

  lemma {:induction false} PinsIfLaid(part: string, laid: string)
    requires StripLeading(TrimSpace(part)) == laid && laid != []
    ensures StatementPins(part) <==> PinsLowered(ToLower(laid))
  {
    if TrimSpace(part) == [] { EmptyStays(TrimSpace(part)); }
  }

  lemma {:induction false} LoweredPins(word: string, r: string)
    requires Letters(word)
    ensures var n := ToLower(word) + " " + ToLower(r);
            PinsLowered(n) <==> SetsState(word, r)
  {
    var set_, prepare := "set", "prepare";
    BeginsWith(word, ToLower(r), set_);
    BeginsWith(word, ToLower(r), prepare);
    assert set_ + " " == "set " && prepare + " " == "prepare ";
    if ToLower(word) == "set" {
      Beyond("set ", ToLower(r), "local");
      assert "set " + "local" == "set local";
      assert ToLower(word) + " " + ToLower(r) == "set " + ToLower(r);
    }
  }
}
