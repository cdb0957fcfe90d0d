/** The configuration store in terms of the text of its files: which lines answer which keys,
    and what an edit does to them. */
module StoreText {
  import opened Wrappers
  import opened CfgStore

  /** A letter answers for itself in either case, any other byte for itself alone. */
  lemma FoldMeans(a: char, b: char)
    ensures SameFold([a], [b]) <==>
      a == b || ('a' <= a <= 'z' && a as int == b as int + 32) || ('a' <= b <= 'z' && b as int == a as int + 32)
  {
    if SameFold([a], [b]) {
      assert Lower([a][0]) == Lower([b][0]);
    }
  }

  lemma FoldConcat(a: string, b: string, c: string, d: string)
    requires |a| == |c|
    ensures SameFold(a + b, c + d) <==> SameFold(a, c) && SameFold(b, d)
  {
    if SameFold(a + b, c + d) {
      forall i | 0 <= i < |a| ensures Lower(a[i]) == Lower(c[i]) {
        assert Lower((a + b)[i]) == Lower((c + d)[i]);
      }
      forall i | 0 <= i < |b| ensures Lower(b[i]) == Lower(d[i]) {
        assert Lower((a + b)[|a| + i]) == Lower((c + d)[|a| + i]);
      }
    }
  }

  // ---- lookups -------------------------------------------------------------------------------------

  predicate Blanks(s: string) { forall i :: 0 <= i < |s| ==> s[i] == ' ' || s[i] == '\t' }

  predicate Trailing(s: string) { forall i :: 0 <= i < |s| ==> s[i] == ' ' || s[i] == '\t' || s[i] == '\r' }

  /** One line without blanks around it, or nothing. */
  predicate Bare(value: string) {
    && (forall i :: 0 <= i < |value| ==> value[i] != '\n')
    && (value != "" ==> value[0] != ' ' && value[0] != '\t' && !Trailing(value[|value| - 1..]))
  }

  lemma {:induction false} BlanksGo(before: string, s: string)
    requires Blanks(before) && (s != "" ==> !Blank(s[0]))
    ensures TrimLeft(before + s) == s
  {
    if before != "" {
      assert (before + s)[1..] == before[1..] + s;
      BlanksGo(before[1..], s);
    }
  }

  lemma {:induction false} TrailingGoes(s: string, after: string)
    requires Trailing(after) && (s != "" ==> !Blank(s[|s| - 1]) && s[|s| - 1] != '\r')
    ensures TrimRight(s + after) == s
  {
    if after == "" {
      assert s + after == s;
    } else {
      assert (s + after)[..|s + after| - 1] == s + after[..|after| - 1];
      TrailingGoes(s, after[..|after| - 1]);
    }
  }

  lemma LineIsKeyed(word: string, before: string, rest: string, key: string)
    requires SameFold(word, key) && UsableKey(word) && before != "" && Blanks(before)
    ensures Body(word + before + rest + "\n") == word + before + rest && Keyed(word + before + rest + "\n", key)
  {
    var b := word + before + rest;
    assert (b + "\n")[..|b|] == b;
    assert b[..|key|] == word && b[|key|] == before[0];
  }

  lemma LineValue(word: string, before: string, value: string, after: string)
    requires Blanks(before) && Bare(value) && Trailing(after)
    requires value == "" ==> after == ""
    ensures TrimRight(TrimLeft((word + before + value + after)[|word|..])) == value
  {
    assert (word + before + value + after)[|word|..] == before + (value + after);
    if value != "" {
      assert value[|value| - 1..][0] == value[|value| - 1];
    }
    BlanksGo(before, value + after);
    TrailingGoes(value, after);
  }

  lemma LineIsOne(word: string, before: string, value: string, after: string)
    requires UsableKey(word) && Blanks(before) && Bare(value) && Trailing(after)
    ensures OneLine(word + before + value + after)
  {
    OneLineConcat(word, before);
    OneLineConcat(word + before, value);
    OneLineConcat(word + before + value, after);
  }

  lemma OneLineConcat(a: string, b: string)
    requires OneLine(a) && OneLine(b)
    ensures OneLine(a + b)
  {
  }

  lemma LineAnswers(word: string, before: string, value: string, after: string, key: string, sz: nat)
    requires SameFold(word, key) && UsableKey(word) && before != "" && Blanks(before)
    requires Bare(value) && Trailing(after) && (value == "" ==> after == "")
    ensures Answer(word + before + value + after + "\n", key, sz) == if 0 < |value| < sz then Some(value) else None
  {
    var b := word + before + value + after;
    assert b == word + before + (value + after);
    LineIsKeyed(word, before, value + after, key);
    LineValue(word, before, value, after);
    assert |word| == |key|;
    hide TrimLeft, TrimRight, Keyed, Body;
  }

  /** A line of a word, blanks, and a value, perhaps with blanks and returns after it: it gives
      its value to every key that is the word in some case, if there is one and it fits, and
      otherwise the lookup goes on. */
  lemma LineGives(word: string, before: string, value: string, after: string, rest: string, key: string, sz: nat)
    requires SameFold(word, key) && UsableKey(word) && before != "" && Blanks(before)
    requires Bare(value) && Trailing(after) && (value == "" ==> after == "")
    ensures Find(word + before + value + after + "\n" + rest, key, sz) ==
      if 0 < |value| < sz then Some(value) else Find(rest, key, sz)
  {
    hide SameFold, Blanks, Bare, Trailing, UsableKey, Answer, LineLength, Body;
    LineIsOne(word, before, value, after);
    LineAnswers(word, before, value, after, key, sz);
    LineOfNewLine(word + before + value + after, rest);
  }

  /** A comment gives nothing. */
  lemma CommentGivesNothing(comment: string, rest: string, key: string, sz: nat)
    requires OneLine(comment)
    ensures Find("#" + comment + "\n" + rest, key, sz) == Find(rest, key, sz)
  {
    LineOfNewLine("#" + comment, rest);
    hide LineLength;
  }

  /** Nor does a line whose first word is another, or that has nothing but a word on it. */
  lemma OtherWordGivesNothing(word: string, line: string, rest: string, key: string, sz: nat)
    requires PlainKey(word) && PlainKey(key) && OneLine(line)
    requires line == "" || (Blank(line[0]) && !SameFold(word, key))
    ensures Find(word + line + "\n" + rest, key, sz) == Find(rest, key, sz)
  {
    OneLineConcat(word, line);
    LineOfNewLine(word + line, rest);
    OtherWordIsNotKeyed(word, line, key);
    hide LineLength, Body, Keyed;
  }

  lemma OtherWordIsNotKeyed(word: string, line: string, key: string)
    requires PlainKey(word) && PlainKey(key) && OneLine(line)
    requires line == "" || (Blank(line[0]) && !SameFold(word, key))
    ensures !Keyed(word + line + "\n", key)
  {
    var b := word + line;
    assert Body(b + "\n") == b;
    assert |key| < |word| ==> b[|key|] == word[|key|];
    assert |key| == |word| ==> b[..|key|] == word;
    if |word| < |key| && line != "" {
      assert b[|word|] == line[0];
      if |key| < |b| {
        assert b[..|key|][|word|] == b[|word|];
        if Lower(b[|word|]) == Lower(key[|word|]) { BlankFold(b[|word|], key[|word|]); }
      }
    }
  }

  /** What one line adds to the candidates. */
  function Candidate(line: string, key: string): seq<string> {
    var p := Parse(line);
    if p.Some? && SameFold(p.value.0, key) then [p.value.1] else []
  }

  lemma CandidatesStep(t: string, key: string)
    requires t != ""
    ensures Candidates(t, key) == Candidate(Line(t), key) + Candidates(Rest(t), key) && |Rest(t)| < |t|
  {
    hide Parse, SameFold;
  }

  /** The candidates of a text are those of its lines, in order. */
  lemma {:induction false} CandidatesConcat(a: string, b: string, key: string)
    requires Ended(a) || b == ""
    ensures Candidates(a + b, key) == Candidates(a, key) + Candidates(b, key)
    decreases |a|
  {
    hide Candidate, Candidates, Line, Rest, LineLength, Parse;
    if a == "" {
      NoCandidates(b, key);
    } else {
      LineOfConcat(a, b);
      CandidatesStep(a, key);
      CandidatesStep(a + b, key);
      CandidatesConcat(Rest(a), b, key);
      ConcatConcat(Candidate(Line(a), key), Candidates(Rest(a), key), Candidates(b, key));
    }
  }

  lemma NoCandidates(b: string, key: string)
    ensures "" + b == b && Candidates("", key) == []
  {
  }

  lemma ConcatConcat(a: seq<string>, b: seq<string>, c: seq<string>)
    ensures a + (b + c) == a + b + c
  {
  }

  // ---- edits ---------------------------------------------------------------------------------------------

  /** What an edit does with the first line of a text. */
  lemma EditStep(t: string, key: string, value: Option<string>, done: bool)
    requires t != ""
    ensures HasKey(t, key) <==> Keyed(Line(t), key) || HasKey(Rest(t), key)
    ensures !Keyed(Line(t), key) ==> Replaced(t, key, value, done) == Line(t) + Replaced(Rest(t), key, value, done)
    ensures t == Line(t) + Rest(t) && |Rest(t)| < |t|
  {
    hide Keyed, NewLine;
  }

  /** Text without a line for the key goes through an edit as it is. */
  lemma {:induction false} Untouched(a: string, b: string, key: string, value: Option<string>, done: bool)
    requires (Ended(a) || b == "") && !HasKey(a, key)
    ensures Replaced(a + b, key, value, done) == a + Replaced(b, key, value, done)
    ensures HasKey(a + b, key) <==> HasKey(b, key)
    decreases |a|
  {
    hide Replaced, HasKey, Line, Rest, LineLength, Keyed;
    if a == "" {
      assert a + b == b;
    } else {
      LineOfConcat(a, b);
      EditStep(a, key, value, done);
      EditStep(a + b, key, value, done);
      Untouched(Rest(a), b, key, value, done);
      hide *;
      assert Line(a) + (Rest(a) + Replaced(b, key, value, done)) == (Line(a) + Rest(a)) + Replaced(b, key, value, done);
    }
  }

  /** A key no line is for: an unset does nothing, and a set adds a line at the end, which it
      ends first if need be. */
  lemma AddsLine(a: string, key: string, value: string)
    requires !HasKey(a, key)
    ensures Edited(a, key, None) == a
    ensures Edited(a, key, Some(value)) == a + (if a == "" || a[|a| - 1] == '\n' then "" else "\n") + key + "\t" + value + "\n"
  {
    Untouched(a, "", key, None, false);
    Untouched(a, "", key, Some(value), false);
    assert a + "" == a;
  }

  lemma {:induction false} Later(t: string, key: string, value: string)
    ensures Replaced(t, key, Some(value), true) == Replaced(t, key, None, false)
    decreases |t|
  {
    if t != "" { Later(Rest(t), key, value); }
  }

  /** Otherwise the first line for it is replaced by the new one, or taken away, and all later
      ones are taken away; nothing else changes. */
  lemma ReplacesLine(a: string, line: string, b: string, key: string, value: string)
    requires Ended(a) && !HasKey(a, key)
    requires line != "" && LineLength(line) == |line| && (Ended(line) || b == "") && Keyed(line, key)
    ensures Edited(a + line + b, key, None) == a + Edited(b, key, None)
    ensures Edited(a + line + b, key, Some(value)) == a + key + "\t" + value + "\n" + Edited(b, key, None)
  {
    hide *;
    assert a + line + b == a + (line + b);
    DropsLine(line, b, key, value);
    Untouched(a, line + b, key, None, false);
    Untouched(a, line + b, key, Some(value), false);
    Later(b, key, value);
    EditedIs(a + line + b, key, None);
    EditedIs(b, key, None);
    EditedIs(a + line + b, key, Some(value));
    RegroupLine(a, key, value, Replaced(b, key, None, false));
  }

  lemma EditedIs(t: string, key: string, value: Option<string>)
    requires value.None? || HasKey(t, key)
    ensures Edited(t, key, value) == Replaced(t, key, value, false)
  {
  }

  lemma RegroupLine(a: string, key: string, value: string, b: string)
    ensures a + (key + "\t" + value + "\n" + b) == a + key + "\t" + value + "\n" + b
  {
  }

  lemma DropsLine(line: string, b: string, key: string, value: string)
    requires line != "" && LineLength(line) == |line| && (Ended(line) || b == "") && Keyed(line, key)
    ensures HasKey(line + b, key) && Replaced(line + b, key, None, false) == Replaced(b, key, None, false)
    ensures Replaced(line + b, key, Some(value), false) == key + "\t" + value + "\n" + Replaced(b, key, Some(value), true)
  {
    LineOfConcat(line, b);
    assert Line(line + b) == line && Rest(line + b) == b;
    hide Keyed, LineLength, Line, Rest;
  }

  /** A key some line is for has a first one. */
  lemma {:induction false} FirstLine(t: string, key: string) returns (a: string, line: string, b: string)
    requires HasKey(t, key)
    ensures t == a + line + b && Ended(a) && !HasKey(a, key)
    ensures line != "" && LineLength(line) == |line| && (Ended(line) || b == "") && Keyed(line, key)
    decreases |t|
  {
    hide Keyed, LineLength;
    LineIsLine(t);
    EditStep(t, key, None, false);
    if Keyed(Line(t), key) {
      a, line, b := "", Line(t), Rest(t);
    } else {
      a, line, b := FirstLine(Rest(t), key);
      LineFind(Line(t), key, 0);
      EditStep(Line(t), key, None, false);
      Untouched(Line(t), a, key, None, false);
      a := Line(t) + a;
      hide *;
    }
  }
}
