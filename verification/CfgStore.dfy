/** The layered configuration store: text files of KEY<whitespace>VALUE lines. Lookups scan
    the concatenation of the layers; a key is set by streaming the user's file through a
    fixed buffer into a new one. Text is without NUL bytes. */
module CfgStore {
  import opened Wrappers

  /** fgets reads at most one byte less than the buffer holds. */
  const StoreMax := 8192
  const KeyMax := 64
  const ValMax := 256

  // ---- lines -----------------------------------------------------------------------------------

  /** The length of the first line of t, with its newline if it has one. */
  function LineLength(t: string): (n: nat)
    ensures n <= |t| && (t != "" ==> n > 0)
    ensures forall i :: 0 <= i < n - 1 ==> t[i] != '\n'
    ensures n < |t| ==> n > 0 && t[n - 1] == '\n'
  {
    if t == "" then 0 else if t[0] == '\n' then 1 else 1 + LineLength(t[1..])
  }

  function Line(t: string): string { t[..LineLength(t)] }
  function Rest(t: string): string { t[LineLength(t)..] }

  function Body(line: string): string {
    if line != "" && line[|line| - 1] == '\n' then line[..|line| - 1] else line
  }

  predicate Blank(c: char) { c == ' ' || c == '\t' }

  function Lower(c: char): char { if 'A' <= c <= 'Z' then (c as int + 32) as char else c }

  /** strncasecmp finds no difference. */
  predicate SameFold(a: string, b: string) {
    |a| == |b| && forall i :: 0 <= i < |a| ==> Lower(a[i]) == Lower(b[i])
  }

  /** The line is one for key. */
  predicate Keyed(line: string, key: string) {
    var b := Body(line);
    b != "" && b[0] != '#' && |b| > |key| && SameFold(b[..|key|], key) && Blank(b[|key|])
  }

  function TrimLeft(s: string): string { if s != "" && Blank(s[0]) then TrimLeft(s[1..]) else s }

  function TrimRight(s: string): string {
    if s != "" && (Blank(s[|s| - 1]) || s[|s| - 1] == '\r') then TrimRight(s[..|s| - 1]) else s
  }

  /** The value on a line whose key is n bytes long. */
  function ValueAt(line: string, n: nat): string {
    if n <= |Body(line)| then TrimRight(TrimLeft(Body(line)[n..])) else ""
  }

  /** The answer of a line: none if it is another key's, or its value does not fit. */
  function Answer(line: string, key: string, sz: nat): Option<string> {
    if Keyed(line, key) && 0 < |ValueAt(line, |key|)| < sz then Some(ValueAt(line, |key|)) else None
  }

  /** The first answer. */
  function Find(t: string, key: string, sz: nat): Option<string>
    decreases |t|
  {
    if t == "" then None
    else if Answer(Line(t), key, sz).Some? then Answer(Line(t), key, sz)
    else Find(Rest(t), key, sz)
  }

  // ---- editing -------------------------------------------------------------------------------------

  function NewLine(key: string, value: string): string { key + "\t" + value + "\n" }

  predicate HasKey(t: string, key: string)
    decreases |t|
  {
    t != "" && (Keyed(Line(t), key) || HasKey(Rest(t), key))
  }

  /** t with its first line for key replaced, unless that has been done or there is no new
      value, and all others dropped. */
  function Replaced(t: string, key: string, value: Option<string>, done: bool): string
    decreases |t|
  {
    if t == "" then ""
    else if !Keyed(Line(t), key) then Line(t) + Replaced(Rest(t), key, value, done)
    else (if value.Some? && !done then NewLine(key, value.value) else "") + Replaced(Rest(t), key, value, done || value.Some?)
  }

  /** t ends a line. */
  predicate Ended(t: string) { t == "" || t[|t| - 1] == '\n' }

  function Appended(t: string, line: string): string { t + (if Ended(t) then "" else "\n") + line }

  /** Setting a key, or with no value unsetting it, line by line. */
  function Edited(t: string, key: string, value: Option<string>): string {
    var r := Replaced(t, key, value, false);
    if value.Some? && !HasKey(t, key) then Appended(r, NewLine(key, value.value)) else r
  }

  datatype Result = Written(text: string) | Unchanged | Failed

  /** What t still contributes, in the middle of a line unless bol. */
  function Left(t: string, bol: bool, skip: bool, key: string, value: Option<string>, done: bool): string {
    if bol then Replaced(t, key, value, done)
    else (if skip then "" else Line(t)) + Replaced(Rest(t), key, value, done)
  }

  /** The lines still to be begun. */
  function ToBegin(t: string, bol: bool): string { if bol then t else Rest(t) }

  /** What fgets reads of t. */
  function Chunk(t: string): (n: nat)
    ensures n <= |t| && n < StoreMax && (t != "" ==> n > 0)
    ensures forall i :: 0 <= i < n - 1 ==> t[i] != '\n'
    ensures n == |t| || n == StoreMax - 1 || (n > 0 && t[n - 1] == '\n')
  {
    if LineLength(t) < StoreMax then LineLength(t) else StoreMax - 1
  }

  lemma {:induction false} SplitLine(t: string, n: nat)
    requires n < LineLength(t)
    ensures LineLength(t[n..]) == LineLength(t) - n && Rest(t[n..]) == Rest(t) && Line(t) == t[..n] + Line(t[n..])
  {
    if n > 0 {
      assert t[1..][n - 1..] == t[n..];
      SplitLine(t[1..], n - 1);
    }
  }

  /** A first chunk shows whether its line is the key's. */
  lemma ChunkShowsKey(t: string, key: string)
    requires t != "" && |key| + 2 <= StoreMax
    ensures var buf := t[..Chunk(t)];
            var body := |buf| - if buf[|buf| - 1] == '\n' then 1 else 0;
            Keyed(Line(t), key) <==> buf[0] != '#' && body > |key| && SameFold(buf[..|key|], key) && Blank(buf[|key|])
  {
    var n := Chunk(t);
    if n < LineLength(t) {
      var b := Body(Line(t));
      assert |b| >= n && forall i :: 0 <= i < n ==> b[i] == t[i];
      assert t[n - 1] != '\n';
      assert b[..|key|] == t[..n][..|key|];
    } else {
      assert Body(Line(t)) == "" ==> t[0] == '\n';
      assert |Body(Line(t))| > |key| ==> Body(Line(t))[..|key|] == t[..n][..|key|];
    }
  }

  /** A chunk of a line that has been begun. */
  lemma ContinueStep(t: string, skip: bool, key: string, value: Option<string>, done: bool)
    requires t != ""
    ensures var n := Chunk(t);
            var eol := t[n - 1] == '\n';
            && Left(t, false, skip, key, value, done) == (if skip then "" else t[..n]) + Left(t[n..], eol, skip, key, value, done)
            && ToBegin(t[n..], eol) == Rest(t)
  {
    if Chunk(t) < LineLength(t) {
      ContinuesLine(t, skip, key, value, done);
    } else {
      EndsLine(t, skip, key, value, done);
    }
  }

  /** A chunk that stops short of the line's end. */
  lemma ContinuesLine(t: string, skip: bool, key: string, value: Option<string>, done: bool)
    requires t != "" && Chunk(t) < LineLength(t)
    ensures var n := Chunk(t);
            && t[n - 1] != '\n'
            && Left(t, false, skip, key, value, done) == (if skip then "" else t[..n]) + Left(t[n..], false, skip, key, value, done)
            && Rest(t[n..]) == Rest(t)
  {
    var n := Chunk(t);
    SplitLine(t, n);
    hide Replaced, LineLength, Line, Rest;
    if !skip { Joined(t[..n], Line(t[n..]), Replaced(Rest(t), key, value, done)); }
  }

  /** A chunk that takes a line to its end, or to the end of the file. */
  lemma EndsLine(t: string, skip: bool, key: string, value: Option<string>, done: bool)
    requires t != "" && Chunk(t) == LineLength(t)
    ensures var n := Chunk(t);
            var eol := t[n - 1] == '\n';
            && Left(t, false, skip, key, value, done) == (if skip then "" else t[..n]) + Left(t[n..], eol, skip, key, value, done)
            && ToBegin(t[n..], eol) == Rest(t)
  {
    hide *;
    LeftOfLine(t, skip, key, value, done);
    NothingAfter(t);
    LeftBegun(t[LineLength(t)..], t[LineLength(t) - 1] == '\n', skip, key, value, done);
  }

  lemma LeftOfLine(t: string, skip: bool, key: string, value: Option<string>, done: bool)
    ensures var n := LineLength(t);
            && Left(t, false, skip, key, value, done) == (if skip then "" else t[..n]) + Replaced(t[n..], key, value, done)
            && Rest(t) == t[n..]
  {
    hide LineLength, Replaced;
  }

  lemma NothingAfter(t: string)
    requires t != ""
    ensures t[LineLength(t) - 1] != '\n' ==> t[LineLength(t)..] == ""
  {
    hide LineLength;
  }

  lemma LeftBegun(t: string, eol: bool, skip: bool, key: string, value: Option<string>, done: bool)
    requires !eol ==> t == ""
    ensures Left(t, eol, skip, key, value, done) == Replaced(t, key, value, done) && ToBegin(t, eol) == t
  {
    if !eol {
      assert Line("") == "" && Rest("") == "";
      var r := Replaced("", key, value, done);
      hide Replaced;
      assert "" + r == r;
    }
  }

  lemma Joined(a: string, b: string, c: string)
    ensures (a + b) + c == a + (b + c)
  {
  }

  /** A line is begun. */
  lemma BeginStep(t: string, skip: bool, key: string, value: Option<string>, done: bool)
    requires t != "" && skip == Keyed(Line(t), key)
    ensures var line := if skip && value.Some? && !done then NewLine(key, value.value) else "";
            && Left(t, true, skip, key, value, done) == line + Left(t, false, skip, key, value, if skip then done || value.Some? else done)
            && (HasKey(t, key) <==> skip || HasKey(Rest(t), key))
  {
    hide Keyed, NewLine;
  }

  /** One chunk's contribution and what is left after it. */
  lemma ChunkStep(t: string, bol: bool, skip: bool, key: string, value: Option<string>, done: bool)
    requires t != "" && (bol ==> skip == Keyed(Line(t), key))
    ensures var n := Chunk(t);
            var line := if bol && skip && value.Some? && !done then NewLine(key, value.value) else "";
            var done' := if bol && skip then done || value.Some? else done;
            var rest := Left(t[n..], t[n - 1] == '\n', skip, key, value, done');
            && Left(t, bol, skip, key, value, done) == line + ((if skip then "" else t[..n]) + rest)
            && (HasKey(ToBegin(t, bol), key) <==> (bol && skip) || HasKey(ToBegin(t[n..], t[n - 1] == '\n'), key))
  {
    hide Replaced, HasKey, Keyed, NewLine, Left;
    if bol {
      BeginStep(t, skip, key, value, done);
      ContinueStep(t, skip, key, value, if skip then done || value.Some? else done);
    } else {
      ContinueStep(t, skip, key, value, done);
    }
  }

  /** The streaming state: how far the file has been read, what has been written. */
  datatype Streaming = Streaming(pos: nat, out: string, replaced: bool, bol: bool, skip: bool, last: char)

  ghost predicate OnTrack(text: string, key: string, value: Option<string>, w: Streaming) {
    && w.pos <= |text|
    && w.out + Left(text[w.pos..], w.bol, w.skip, key, value, w.replaced) == Replaced(text, key, value, false)
    && (value.Some? ==> (HasKey(text, key) <==> w.replaced || HasKey(ToBegin(text[w.pos..], w.bol), key)))
    && (w.replaced ==> value.Some?)
    && (!w.replaced ==> w.last == LastOf(w.out))
  }

  /** The state after a chunk, of a line that is skipped or not. */
  function Stepped(text: string, key: string, value: Option<string>, w: Streaming, skip: bool): Streaming
    requires w.pos < |text|
  {
    var t := text[w.pos..];
    var n := Chunk(t);
    var substitutes := w.bol && skip && !w.replaced && value.Some?;
    Streaming(w.pos + n,
      w.out + (if substitutes then NewLine(key, value.value) else "") + (if skip then "" else t[..n]),
      w.replaced || substitutes, t[n - 1] == '\n', skip, if skip then w.last else t[n - 1])
  }

  lemma StaysOnTrack(text: string, key: string, value: Option<string>, w: Streaming, skip: bool)
    requires w.pos < |text| && OnTrack(text, key, value, w)
    requires skip == if w.bol then Keyed(Line(text[w.pos..]), key) else w.skip
    ensures OnTrack(text, key, value, Stepped(text, key, value, w, skip))
  {
    hide Replaced, HasKey, Keyed, NewLine, Left, ToBegin;
    var t := text[w.pos..];
    var n := Chunk(t);
    ChunkStep(t, w.bol, skip, key, value, w.replaced);
    SkipMatters(t, w.bol, skip, w.skip, key, value, w.replaced);
    assert t[n..] == text[w.pos + n..];
    var w' := Stepped(text, key, value, w, skip);
    var line := if w.bol && skip && !w.replaced && value.Some? then NewLine(key, value.value) else "";
    var rest := Left(t[n..], t[n - 1] == '\n', skip, key, value, w'.replaced);
    Regroup(w.out, line, if skip then "" else t[..n], rest);
    hide Stepped;
  }

  lemma Regroup(a: string, b: string, c: string, d: string)
    ensures a + (b + (c + d)) == a + b + c + d
  {
  }

  /** One turn of the loop: a line, or as much of it as the buffer holds. */
  method WriteChunk(text: string, key: string, value: Option<string>, w: Streaming) returns (w': Streaming)
    requires |key| + 2 <= StoreMax && w.pos < |text| && OnTrack(text, key, value, w)
    ensures OnTrack(text, key, value, w') && w.pos < w'.pos
  {
    hide OnTrack, Keyed, NewLine, SameFold, Line;
    var t := text[w.pos..];
    var n := Chunk(t);
    var buf := t[..n];
    var eol := buf[|buf| - 1] == '\n';
    var replaced, skip, last, out := w.replaced, w.skip, w.last, w.out;
    if w.bol {
      var body := |buf| - if eol then 1 else 0;
      ChunkShowsKey(t, key);
      skip := buf[0] != '#' && body > |key| && SameFold(buf[..|key|], key) && Blank(buf[|key|]);
      if skip && !replaced && value.Some? {
        replaced := true;
        out := out + NewLine(key, value.value);
      }
    }
    StaysOnTrack(text, key, value, w, skip);
    if !skip {
      out := out + buf;
      last := buf[|buf| - 1];
    }
    w' := Streaming(w.pos + n, out, replaced, eol, skip, last);
    assert w' == Stepped(text, key, value, w, skip);
  }

  lemma SkipMatters(t: string, bol: bool, a: bool, b: bool, key: string, value: Option<string>, done: bool)
    requires !bol ==> a == b
    ensures Left(t, bol, a, key, value, done) == Left(t, bol, b, key, value, done)
  {
  }

  lemma OnTrackAtStart(text: string, key: string, value: Option<string>)
    ensures OnTrack(text, key, value, Streaming(0, "", false, true, false, '\n'))
  {
    assert text[0..] == text;
  }

  lemma OnTrackAtEnd(text: string, key: string, value: Option<string>, w: Streaming)
    requires OnTrack(text, key, value, w) && w.pos == |text|
    ensures w.out == Replaced(text, key, value, false) && (value.Some? ==> (HasKey(text, key) <==> w.replaced))
    ensures !w.replaced ==> (w.last == '\n' <==> Ended(w.out))
  {
    assert text[w.pos..] == "";
  }

  /** cfg_write. user is the file as it is, if there is one. */
  method Write(user: Option<string>, key: string, value: Option<string>) returns (r: Result)
    ensures |key| + 2 > StoreMax ==> r == Failed
    ensures |key| + 2 <= StoreMax ==>
      r == if user.None? && value.None? then Unchanged
           else Written(Edited(if user.Some? then user.value else "", key, value))
  {
    hide HasKey, NewLine, OnTrack, Ended, Replaced;
    if |key| + 2 > StoreMax { return Failed; }
    if user.None? && value.None? { return Unchanged; }
    var text := if user.Some? then user.value else "";
    var w := Streaming(0, "", false, true, false, '\n');
    OnTrackAtStart(text, key, value);
    OnTrackInside(text, key, value, w);
    while w.pos < |text|
      invariant OnTrack(text, key, value, w) && w.pos <= |text|
      decreases |text| - w.pos
    {
      w := WriteChunk(text, key, value, w);
      OnTrackInside(text, key, value, w);
    }
    OnTrackAtEnd(text, key, value, w);
    var out := w.out;
    if !w.replaced && value.Some? {
      if w.last != '\n' {
        out := out + "\n";
      }
      out := out + NewLine(key, value.value);
    }
    r := Written(out);
  }

  lemma OnTrackInside(text: string, key: string, value: Option<string>, w: Streaming)
    requires OnTrack(text, key, value, w)
    ensures w.pos <= |text| && (w.replaced ==> value.Some?)
  {
  }

  function LastOf(t: string): char { if t == "" then '\n' else t[|t| - 1] }

  // ---- lookups ------------------------------------------------------------------------------------

  /** cfg_find: the first line that answers. */
  method CfgFind(text: string, key: string, sz: nat) returns (r: Option<string>)
    ensures r == Find(text, key, sz)
  {
    var p := text;
    while p != ""
      invariant Find(p, key, sz) == Find(text, key, sz)
      decreases |p|
    {
      var line := Body(Line(p));
      var len := |line|;
      if line != "" && line[0] != '#' && len > |key| && SameFold(line[..|key|], key) && Blank(line[|key|]) {
        var v := |key|;
        while v < len && Blank(line[v])
          invariant |key| <= v <= len && TrimLeft(line[v..]) == TrimLeft(line[|key|..])
        {
          assert line[v..][1..] == line[v + 1..];
          v := v + 1;
        }
        assert TrimLeft(line[v..]) == line[v..];
        var value := line[v..];
        while value != "" && (Blank(value[|value| - 1]) || value[|value| - 1] == '\r')
          invariant TrimRight(value) == TrimRight(line[v..])
          decreases |value|
        {
          value := value[..|value| - 1];
        }
        if value != "" && |value| < sz { return Some(value); }
      }
      p := Rest(p);
    }
    return None;
  }

  predicate OneLine(s: string) { forall i :: 0 <= i < |s| ==> s[i] != '\n' }

  /** A key a line can be for. */
  predicate UsableKey(key: string) { OneLine(key) && (key != "" ==> key[0] != '#') }

  /** One without a byte that could end it earlier on a line. */
  predicate PlainKey(key: string) { UsableKey(key) && forall i :: 0 <= i < |key| ==> !Blank(key[i]) }

  /** long goes on after short, with a blank. */
  predicate Extends(long: string, short: string) {
    |short| < |long| && SameFold(long[..|short|], short) && Blank(long[|short|])
  }

  /** No line can be for both keys. */
  predicate Apart(a: string, b: string) { !SameFold(a, b) && !Extends(a, b) && !Extends(b, a) }

  lemma PlainApart(a: string, b: string)
    requires PlainKey(a) && PlainKey(b)
    ensures Apart(a, b) <==> !SameFold(a, b)
  {
  }

  /** A value a lookup can give: one line, no blanks around it, and it fits. */
  predicate Clean(value: string, sz: nat) {
    && 0 < |value| < sz && (forall i :: 0 <= i < |value| ==> value[i] != '\n')
    && !Blank(value[0]) && !Blank(value[|value| - 1]) && value[|value| - 1] != '\r'
  }

  lemma {:induction false} TrimLeftClean(s: string)
    ensures var t := TrimLeft(s);
            |t| <= |s| && t == s[|s| - |t|..] && (t != "" ==> !Blank(t[0])) && (s != "" && !Blank(s[0]) ==> t == s)
  {
    if s != "" && Blank(s[0]) { TrimLeftClean(s[1..]); }
  }

  lemma {:induction false} TrimRightClean(s: string)
    ensures var t := TrimRight(s);
            |t| <= |s| && t == s[..|t|] && (t != "" ==> !Blank(t[|t| - 1]) && t[|t| - 1] != '\r')
    ensures s != "" && !Blank(s[|s| - 1]) && s[|s| - 1] != '\r' ==> TrimRight(s) == s
  {
    if s != "" && (Blank(s[|s| - 1]) || s[|s| - 1] == '\r') { TrimRightClean(s[..|s| - 1]); }
  }

  lemma BodyHasNoNewline(t: string)
    ensures forall i :: 0 <= i < |Body(Line(t))| ==> Body(Line(t))[i] != '\n'
  {
  }

  /** Whatever a lookup gives is clean. */
  lemma {:induction false} FindIsClean(t: string, key: string, sz: nat)
    ensures Find(t, key, sz).Some? ==> Clean(Find(t, key, sz).value, sz)
    decreases |t|
  {
    hide Answer, Clean, LineLength;
    if t != "" {
      FindIsClean(Rest(t), key, sz);
      AnswerIsClean(t, key, sz);
    }
  }

  lemma AnswerIsClean(t: string, key: string, sz: nat)
    ensures Answer(Line(t), key, sz).Some? ==> Clean(Answer(Line(t), key, sz).value, sz)
  {
    if Answer(Line(t), key, sz).Some? {
      var b := Body(Line(t));
      BodyHasNoNewline(t);
      TrimLeftClean(b[|key|..]);
      TrimRightClean(TrimLeft(b[|key|..]));
    }
  }

  // ---- what a new line answers -----------------------------------------------------------------

  lemma {:induction false} LineOfNewLine(a: string, rest: string)
    requires forall i :: 0 <= i < |a| ==> a[i] != '\n'
    ensures LineLength(a + "\n" + rest) == |a| + 1
    ensures Line(a + "\n" + rest) == a + "\n" && Rest(a + "\n" + rest) == rest && Body(a + "\n") == a
  {
    if a != "" {
      assert (a + "\n" + rest)[1..] == a[1..] + "\n" + rest;
      LineOfNewLine(a[1..], rest);
    }
  }

  lemma NewLineIsKeyed(key: string, value: string)
    requires UsableKey(key)
    ensures Body(NewLine(key, value)) == key + "\t" + value && Keyed(NewLine(key, value), key)
  {
    var b := key + "\t" + value;
    assert b[..|key|] == key && b[|key|] == '\t';
  }

  lemma NewLineAnswers(key: string, value: string, sz: nat)
    requires UsableKey(key) && Clean(value, sz)
    ensures Answer(NewLine(key, value), key, sz) == Some(value)
  {
    NewLineIsKeyed(key, value);
    var b := key + "\t" + value;
    assert b[|key|..] == "\t" + value && ("\t" + value)[1..] == value;
    TrimLeftClean(value);
    TrimRightClean(value);
  }

  /** It is no line for another key. */
  lemma NewLineIsNotKeyed(key: string, value: string, other: string)
    requires Apart(key, other)
    ensures !Keyed(NewLine(key, value), other)
  {
    var b := key + "\t" + value;
    assert Body(NewLine(key, value)) == b;
    assert b[..|key|] == key && b[|key|] == '\t';
    if |other| == |key| {
      assert b[..|other|] == key;
    } else if |other| < |key| {
      assert b[..|other|] == key[..|other|] && b[|other|] == key[|other|];
    } else if |other| < |b| && SameFold(b[..|other|], other) {
      FoldPrefix(b, other, key);
    }
  }

  /** Where two keys stand at the front of one body, the longer extends the shorter. */
  lemma FoldPrefix(b: string, long: string, short: string)
    requires |short| < |long| <= |b| && SameFold(b[..|long|], long) && SameFold(b[..|short|], short) && Blank(b[|short|])
    ensures Extends(long, short)
  {
    forall i | 0 <= i < |short| ensures Lower(long[..|short|][i]) == Lower(short[i]) {
      assert Lower(b[..|long|][i]) == Lower(long[i]) && Lower(b[..|short|][i]) == Lower(short[i]);
    }
    assert Lower(b[..|long|][|short|]) == Lower(long[|short|]);
    BlankFold(b[|short|], long[|short|]);
  }

  // ---- concatenation -------------------------------------------------------------------------------

  function OrElse(a: Option<string>, b: Option<string>): Option<string> { if a.Some? then a else b }

  lemma {:induction false} LineOfConcat(a: string, b: string)
    requires a != "" && (Ended(a) || b == "")
    ensures Line(a + b) == Line(a) && Rest(a + b) == Rest(a) + b && (Ended(Rest(a)) || b == "")
  {
    if a[0] != '\n' && a[1..] != "" {
      assert (a + b)[1..] == a[1..] + b;
      LineOfConcat(a[1..], b);
    }
  }

  /** After a text that ends its last line, a lookup goes on into what follows. */
  lemma {:induction false} FindConcat(a: string, b: string, key: string, sz: nat)
    requires Ended(a) || b == ""
    ensures Find(a + b, key, sz) == OrElse(Find(a, key, sz), Find(b, key, sz))
    decreases |a|
  {
    if a == "" {
      assert a + b == b;
    } else {
      LineOfConcat(a, b);
      FindConcat(Rest(a), b, key, sz);
    }
  }

  lemma {:induction false} LineOfEnding(a: string)
    requires a != "" && !Ended(a)
    ensures Body(Line(a + "\n")) == Body(Line(a))
    ensures if Rest(a) == "" then Rest(a + "\n") == "" else !Ended(Rest(a)) && Rest(a + "\n") == Rest(a) + "\n"
  {
    if a[0] != '\n' && a[1..] != "" {
      assert (a + "\n")[1..] == a[1..] + "\n";
      LineOfEnding(a[1..]);
    }
  }

  /** Ending the last line changes no answer. */
  lemma {:induction false} FindEnding(a: string, key: string, sz: nat)
    requires !Ended(a)
    ensures Find(a + "\n", key, sz) == Find(a, key, sz) && Ended(a + "\n")
    decreases |a|
  {
    LineOfEnding(a);
    if Rest(a) != "" { FindEnding(Rest(a), key, sz); }
  }

  lemma FindAppended(a: string, line: string, key: string, sz: nat)
    ensures Find(Appended(a, line), key, sz) == OrElse(Find(a, key, sz), Find(line, key, sz))
  {
    if Ended(a) {
      assert Appended(a, line) == a + line;
      FindConcat(a, line, key, sz);
    } else {
      FindEnding(a, key, sz);
      FindConcat(a + "\n", line, key, sz);
    }
  }

  // ---- what an edit does to lookups --------------------------------------------------------------

  lemma {:induction false} NoKeyNoAnswer(t: string, key: string, sz: nat)
    requires !HasKey(t, key)
    ensures Find(t, key, sz).None?
    decreases |t|
  {
    if t != "" { NoKeyNoAnswer(Rest(t), key, sz); }
  }

  lemma LineFind(line: string, key: string, sz: nat)
    requires line != "" && LineLength(line) == |line|
    ensures Find(line, key, sz) == Answer(line, key, sz) && Line(line) == line
  {
    assert Line(line) == line && Rest(line) == "";
  }

  lemma NewLineFind(key: string, value: string, other: string, sz: nat)
    requires OneLine(key) && OneLine(value)
    ensures Find(NewLine(key, value), other, sz) == Answer(NewLine(key, value), other, sz) && Ended(NewLine(key, value))
  {
    LineOfNewLine(key + "\t" + value, "");
    assert key + "\t" + value + "\n" + "" == NewLine(key, value);
    LineFind(NewLine(key, value), other, sz);
  }

  lemma LineIsLine(t: string)
    requires t != ""
    ensures LineLength(Line(t)) == |Line(t)| && (Ended(Line(t)) || Rest(t) == "")
  {
    LineOfConcatSelf(t);
  }

  lemma {:induction false} LineOfConcatSelf(t: string)
    ensures LineLength(t[..LineLength(t)]) == LineLength(t)
  {
    if t != "" && t[0] != '\n' {
      assert t[..LineLength(t)][1..] == t[1..][..LineLength(t[1..])];
      LineOfConcatSelf(t[1..]);
    }
  }

  /** With no value to put in, every line for the key is gone. */
  lemma {:induction false} AllDropped(t: string, key: string, value: Option<string>, done: bool, sz: nat)
    requires value.None? || done
    ensures Find(Replaced(t, key, value, done), key, sz).None?
    decreases |t|
  {
    if t != "" {
      var r := Replaced(Rest(t), key, value, done);
      AllDropped(Rest(t), key, value, done, sz);
      if Keyed(Line(t), key) {
        assert Replaced(t, key, value, done) == r;
      } else {
        LineIsLine(t);
        LineFind(Line(t), key, sz);
        FindConcat(Line(t), r, key, sz);
      }
    }
  }

  /** The new value is found where the first line for the key was. */
  lemma {:induction false} ReplacementFound(t: string, key: string, value: string, sz: nat)
    requires UsableKey(key) && Clean(value, sz)
    ensures Find(Replaced(t, key, Some(value), false), key, sz) == if HasKey(t, key) then Some(value) else None
    decreases |t|
  {
    if t != "" {
      if Keyed(Line(t), key) {
        NewLineFind(key, value, key, sz);
        NewLineAnswers(key, value, sz);
        FindConcat(NewLine(key, value), Replaced(Rest(t), key, Some(value), true), key, sz);
      } else {
        ReplacementFound(Rest(t), key, value, sz);
        LineIsLine(t);
        LineFind(Line(t), key, sz);
        FindConcat(Line(t), Replaced(Rest(t), key, Some(value), false), key, sz);
      }
    }
  }

  /** No line is for a key that has a newline in it or looks like a comment. */
  lemma {:induction false} NeverFound(t: string, key: string, sz: nat)
    requires !UsableKey(key)
    ensures Find(t, key, sz).None?
    decreases |t|
  {
    if t != "" {
      NeverFound(Rest(t), key, sz);
      NeverKeyed(t, key);
    }
  }

  lemma NeverKeyed(t: string, key: string)
    requires !UsableKey(key)
    ensures !Keyed(Line(t), key)
  {
    BodyHasNoNewline(t);
    var b := Body(Line(t));
    if |key| < |b| && SameFold(b[..|key|], key) {
      forall i | 0 <= i < |key| ensures Lower(b[i]) == Lower(key[i]) {
        assert Lower(b[..|key|][i]) == Lower(key[i]);
      }
    }
  }

  /** After a set, a lookup finds the value exactly when the value is one a lookup can give and
      the key one a line can be for. */
  lemma SetThenFind(t: string, key: string, value: string, sz: nat)
    ensures Find(Edited(t, key, Some(value)), key, sz) == Some(value) <==> Clean(value, sz) && UsableKey(key)
  {
    FindIsClean(Edited(t, key, Some(value)), key, sz);
    if !UsableKey(key) { NeverFound(Edited(t, key, Some(value)), key, sz); }
    if Clean(value, sz) && UsableKey(key) {
      ReplacementFound(t, key, value, sz);
      NewLineFind(key, value, key, sz);
      NewLineAnswers(key, value, sz);
      FindAppended(Replaced(t, key, Some(value), false), NewLine(key, value), key, sz);
    }
  }

  lemma UnsetThenFind(t: string, key: string, sz: nat)
    ensures Find(Edited(t, key, None), key, sz).None?
  {
    AllDropped(t, key, None, false, sz);
  }

  /** A line is for one key at most. */
  lemma KeyedOnce(line: string, key: string, other: string)
    requires Keyed(line, key) && Keyed(line, other)
    ensures !Apart(key, other)
  {
    var b := Body(line);
    if |key| < |other| {
      FoldPrefix(b, other, key);
    } else if |other| < |key| {
      FoldPrefix(b, key, other);
    } else {
      forall i | 0 <= i < |key| ensures Lower(key[i]) == Lower(other[i]) {
        assert Lower(b[..|key|][i]) == Lower(key[i]);
      }
    }
  }

  /** Other keys' answers are untouched by a replacement. */
  lemma {:induction false} OthersKept(t: string, key: string, value: Option<string>, done: bool, other: string, sz: nat)
    requires Apart(key, other) && (value.Some? ==> OneLine(key) && OneLine(value.value))
    ensures Find(Replaced(t, key, value, done), other, sz) == Find(t, other, sz)
    decreases |t|
  {
    if t != "" {
      OtherLine(t, key, other, sz);
      hide Find, Keyed, Answer, NewLine, Apart, OneLine, LineLength, Body;
      var done' := if Keyed(Line(t), key) then done || value.Some? else done;
      var r := Replaced(Rest(t), key, value, done');
      OthersKept(Rest(t), key, value, done', other, sz);
      LineIsLine(t);
      LineFind(Line(t), other, sz);
      if !Keyed(Line(t), key) {
        FindConcat(Line(t), r, other, sz);
      } else if value.Some? && !done {
        NewLineFind(key, value.value, other, sz);
        NewLineIsNotKeyed(key, value.value, other);
        NoAnswer(NewLine(key, value.value), other, sz);
        FindConcat(NewLine(key, value.value), r, other, sz);
      } else {
        assert Replaced(t, key, value, done) == r;
      }
    }
  }

  lemma NoAnswer(line: string, key: string, sz: nat)
    requires !Keyed(line, key)
    ensures Answer(line, key, sz).None?
  {
  }

  /** A line for one key is no line for another. */
  lemma OtherLine(t: string, key: string, other: string, sz: nat)
    requires t != "" && Apart(key, other)
    ensures Find(t, other, sz) == OrElse(Answer(Line(t), other, sz), Find(Rest(t), other, sz))
    ensures Keyed(Line(t), key) ==> Answer(Line(t), other, sz).None?
  {
    if Keyed(Line(t), key) && Keyed(Line(t), other) {
      KeyedOnce(Line(t), key, other);
    }
  }

  /** After a set or an unset, every other key's answer is what it was. */
  lemma EditKeepsOthers(t: string, key: string, value: Option<string>, other: string, sz: nat)
    requires Apart(key, other) && (value.Some? ==> OneLine(key) && OneLine(value.value))
    ensures Find(Edited(t, key, value), other, sz) == Find(t, other, sz)
  {
    OthersKept(t, key, value, false, other, sz);
    if value.Some? {
      NewLineFind(key, value.value, other, sz);
      NewLineIsNotKeyed(key, value.value, other);
      FindAppended(Replaced(t, key, value, false), NewLine(key, value.value), other, sz);
    }
  }

  lemma {:induction false} TrimLeftEnd(s: string)
    requires s != "" && !Blank(s[|s| - 1])
    ensures 0 < |TrimLeft(s)| <= |s| && TrimLeft(s)[|TrimLeft(s)| - 1] == s[|s| - 1]
  {
    if Blank(s[0]) { TrimLeftEnd(s[1..]); }
  }

  /** A new line for k, as far as it is one for key, answers something. */
  lemma SharedAnswers(k: string, key: string)
    requires Keyed(NewLine(k, "v"), key)
    ensures Answer(NewLine(k, "v"), key, |k| + 3).Some?
  {
    var b := k + "\tv";
    assert Body(NewLine(k, "v")) == b;
    TrimLeftEnd(b[|key|..]);
  }

  lemma KeyedToo(k: string, key: string)
    requires UsableKey(k) && UsableKey(key) && (SameFold(k, key) || Extends(k, key))
    ensures Keyed(NewLine(k, "v"), key)
  {
    NewLineIsKeyed(k, "v");
    var b := k + "\tv";
    assert b[..|key|] == k[..|key|] && k[..|k|] == k;
    if |k| > |key| { assert b[|key|] == k[|key|]; }
    if key != "" { assert Lower(k[0]) == Lower(key[0]) by { assert k[..|key|][0] == k[0]; } }
  }

  /** A line that both keys answer to: unsetting the one takes away the other's answer. */
  lemma SharedLineLost(k: string, key: string, other: string)
    requires UsableKey(k) && Keyed(NewLine(k, "v"), key) && Keyed(NewLine(k, "v"), other)
    ensures Find(Edited(NewLine(k, "v"), key, None), other, |k| + 3) != Find(NewLine(k, "v"), other, |k| + 3)
  {
    var t := NewLine(k, "v");
    SharedAnswers(k, other);
    NewLineFind(k, "v", other, |k| + 3);
    LineOfNewLine(k + "\t" + "v", "");
    assert k + "\t" + "v" + "\n" + "" == t;
    assert Replaced("", key, None, false) == "";
    assert Replaced(t, key, None, false) == "" + "";
  }

  /** Setting and unsetting a key never changes what another is answered exactly when no line
      can be for both. */
  lemma OthersExactly(key: string, other: string)
    requires UsableKey(key) && UsableKey(other)
    ensures Apart(key, other) <==>
      forall t, value: Option<string>, sz :: (value.Some? ==> OneLine(value.value)) ==> Find(Edited(t, key, value), other, sz) == Find(t, other, sz)
  {
    if Apart(key, other) {
      hide Apart, OneLine, Find, Edited;
      forall t, value: Option<string>, sz | value.Some? ==> OneLine(value.value)
        ensures Find(Edited(t, key, value), other, sz) == Find(t, other, sz)
      {
        EditKeepsOthers(t, key, value, other, sz);
      }
    } else {
      var k := if Extends(other, key) then other else key;
      if k == key { NewLineIsKeyed(key, "v"); } else { NewLineIsKeyed(other, "v"); }
      if Extends(other, key) { KeyedToo(other, key); } else { KeyedToo(key, other); }
      SharedLineLost(k, key, other);
    }
  }

  // ---- layers ----------------------------------------------------------------------------------------

  /** The answer of the first layer that has one. */
  function FirstAnswer(layers: seq<string>, key: string, sz: nat): Option<string> {
    if layers == [] then None
    else OrElse(FirstAnswer(layers[..|layers| - 1], key, sz), Find(layers[|layers| - 1], key, sz))
  }

  /** The whole of a layer, or as many of its first lines as there was room for. */
  ghost predicate Cut(cut: string, layer: string) {
    cut <= layer && (cut == layer || Ended(cut))
  }

  datatype Status = Absent | Found | TooBig

  function Content(layer: Option<string>): string { if layer.Some? then layer.value else "" }

  /** One layer's turn: n bytes of it are taken. */
  method LoadLayer(text: string, layer: string, sz: nat) returns (text': string, n: nat)
    requires |text| < sz
    ensures |text'| < sz && n <= |layer| && Cut(layer[..n], layer)
    ensures forall key, vsz :: Find(text', key, vsz) == OrElse(Find(text, key, vsz), Find(layer[..n], key, vsz))
  {
    hide Find;
    var t := text;
    if text != "" && !Ended(text) && |text| + 1 < sz {
      t := text + "\n";
    }
    var space := if |t| + 1 < sz then sz - 1 - |t| else 0;
    n := if |layer| < space then |layer| else space;
    if |layer| > n {
      while n > 0 && layer[n - 1] != '\n'
        invariant n <= |layer| && n <= space
      {
        n := n - 1;
      }
    }
    text' := t + layer[..n];
    forall key, vsz ensures Find(text', key, vsz) == OrElse(Find(text, key, vsz), Find(layer[..n], key, vsz)) {
      if t != text { FindEnding(text, key, vsz); }
      FindConcat(t, layer[..n], key, vsz);
    }
  }

  /** cfg_load3, on the layers' contents. The cuts are what it took of each layer. */
  method Load(layers: seq<Option<string>>, sz: nat) returns (text: string, status: Status, ghost cuts: seq<string>)
    requires 0 < sz
    ensures |text| < sz
    ensures |cuts| == |layers| && forall i :: 0 <= i < |cuts| ==> Cut(cuts[i], Content(layers[i]))
    ensures forall key, vsz :: Find(text, key, vsz) == FirstAnswer(cuts, key, vsz)
    ensures status == TooBig <==> exists i :: 0 <= i < |cuts| && cuts[i] != Content(layers[i])
    ensures status != TooBig ==> cuts == seq(|layers|, i requires 0 <= i < |layers| => Content(layers[i]))
    ensures status == Absent <==> forall i :: 0 <= i < |layers| ==> layers[i].None?
  {
    hide Find, Cut;
    text, status, cuts := "", Absent, [];
    NothingFound();
    for i := 0 to |layers|
      invariant |text| < sz
      invariant |cuts| == i && forall j :: 0 <= j < i ==> Cut(cuts[j], Content(layers[j]))
      invariant forall key, vsz :: Find(text, key, vsz) == FirstAnswer(cuts, key, vsz)
      invariant status == TooBig <==> exists j :: 0 <= j < i && cuts[j] != Content(layers[j])
      invariant status == Absent <==> forall j :: 0 <= j < i ==> layers[j].None?
    {
      ghost var before := cuts;
      if layers[i].Some? {
        var layer := layers[i].value;
        var n;
        text, n := LoadLayer(text, layer, sz);
        if n < |layer| {
          status := TooBig;
        } else if status == Absent {
          status := Found;
        }
        assert n == |layer| ==> layer[..n] == layer;
        cuts := cuts + [layer[..n]];
      } else {
        EmptyLayer();
        cuts := cuts + [""];
      }
      assert cuts[..i] == before;
    }
  }

  lemma NothingFound()
    ensures forall key, vsz :: Find("", key, vsz).None?
  {
  }

  lemma EmptyLayer()
    ensures forall key, vsz :: Find("", key, vsz).None?
    ensures Cut("", "")
  {
  }

  /** A store that fits answers with the user's line for a key, failing that the
      administrator's, failing that the baked one. */
  lemma LayerPrecedence(user: string, etc: string, baked: string, key: string, sz: nat)
    ensures FirstAnswer([user, etc, baked], key, sz) == OrElse(Find(user, key, sz), OrElse(Find(etc, key, sz), Find(baked, key, sz)))
  {
    hide Find;
    OneMoreLayer([], user, key, sz);
    OneMoreLayer([user], etc, key, sz);
    OneMoreLayer([user, etc], baked, key, sz);
    assert [] + [user] == [user] && [user] + [etc] == [user, etc] && [user, etc] + [baked] == [user, etc, baked];
  }

  /** A set or an unset of the user's layer, as a lookup in all three sees it: the value set
      is found exactly when it is one a lookup can give for a key a line can be for; after an
      unset the lower layers answer; and keys that share no line are answered as before. */
  lemma SetThenLookup(user: string, etc: string, baked: string, key: string, value: Option<string>, sz: nat)
    ensures var after := FirstAnswer([Edited(user, key, value), etc, baked], key, sz);
      if value.Some? then after == value <==> Clean(value.value, sz) && UsableKey(key)
      else after == OrElse(Find(etc, key, sz), Find(baked, key, sz))
    ensures (value.Some? ==> OneLine(key) && OneLine(value.value)) ==>
      forall other :: Apart(key, other) ==>
        FirstAnswer([Edited(user, key, value), etc, baked], other, sz) == FirstAnswer([user, etc, baked], other, sz)
  {
    hide Find, Edited, UsableKey, Apart, Clean, OneLine;
    var after := Edited(user, key, value);
    LayerPrecedence(after, etc, baked, key, sz);
    if value.Some? {
      SetThenFind(user, key, value.value, sz);
      FindIsClean(after, key, sz);
      FindIsClean(etc, key, sz);
      FindIsClean(baked, key, sz);
      if !UsableKey(key) {
        NeverFound(after, key, sz);
        NeverFound(etc, key, sz);
        NeverFound(baked, key, sz);
      }
    } else {
      UnsetThenFind(user, key, sz);
    }
    if value.Some? ==> OneLine(key) && OneLine(value.value) {
      forall other | Apart(key, other)
        ensures FirstAnswer([after, etc, baked], other, sz) == FirstAnswer([user, etc, baked], other, sz)
      {
        EditKeepsOthers(user, key, value, other, sz);
        LayerPrecedence(after, etc, baked, other, sz);
        LayerPrecedence(user, etc, baked, other, sz);
      }
    }
  }

  lemma OneMoreLayer(layers: seq<string>, layer: string, key: string, sz: nat)
    ensures FirstAnswer(layers + [layer], key, sz) == OrElse(FirstAnswer(layers, key, sz), Find(layer, key, sz))
  {
    assert (layers + [layer])[..|layers|] == layers;
  }

  // ---- iteration ---------------------------------------------------------------------------------------

  function KeyEnd(b: string): nat { if b != "" && !Blank(b[0]) then 1 + KeyEnd(b[1..]) else 0 }

  /** cfg_parse_line: the key and value of a usable line, as copies that fit their buffers. */
  function Parse(line: string): Option<(string, string)> {
    var b := Body(line);
    if b == "" || b[0] == '#' then None else
    var k := KeyEnd(b);
    if k == 0 || k >= |b| || k + 1 > KeyMax then None else
    var v := ValueAt(line, k);
    if v == "" || |v| + 1 > ValMax then None else Some((b[..k], v))
  }

  /** The values of the usable lines for key, in order. */
  function Candidates(t: string, key: string): seq<string>
    decreases |t|
  {
    if t == "" then []
    else
      var p := Parse(Line(t));
      (if p.Some? && SameFold(p.value.0, key) then [p.value.1] else []) + Candidates(Rest(t), key)
  }

  lemma {:induction false} KeyEndBounds(b: string)
    ensures var k := KeyEnd(b);
            k <= |b| && (forall i :: 0 <= i < k ==> !Blank(b[i])) && (k < |b| ==> Blank(b[k]))
  {
    if b != "" && !Blank(b[0]) { KeyEndBounds(b[1..]); }
  }

  lemma BlankFold(a: char, b: char)
    requires Lower(a) == Lower(b)
    ensures Blank(a) == Blank(b)
  {
  }

  /** Splitting a line agrees with comparing in place, for keys that fit. */
  lemma ParseAgrees(line: string, key: string)
    requires PlainKey(key) && 0 < |key| < KeyMax
    ensures var p := Parse(line);
            Answer(line, key, ValMax) == if p.Some? && SameFold(p.value.0, key) then Some(p.value.1) else None
  {
    var b := Body(line);
    var k := KeyEnd(b);
    KeyEndBounds(b);
    if Keyed(line, key) {
      forall i | 0 <= i < |key| ensures !Blank(b[i]) {
        assert b[..|key|][i] == b[i];
        BlankFold(b[i], key[i]);
      }
      assert k == |key|;
      assert b[..k] == b[..|key|];
    }
  }

  /** The first candidate for a key is what a lookup answers. */
  lemma {:induction false} FirstCandidate(t: string, key: string)
    requires PlainKey(key) && 0 < |key| < KeyMax
    ensures var c := Candidates(t, key); Find(t, key, ValMax) == if c == [] then None else Some(c[0])
    decreases |t|
  {
    if t != "" {
      ParseAgrees(Line(t), key);
      FirstCandidate(Rest(t), key);
    }
  }
}
