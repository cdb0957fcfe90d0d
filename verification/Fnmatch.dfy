/** fnmatch(3): the "sea of stars" matcher against the wildcard relation of
    POSIX XCU section 2.13, for single-byte patterns and strings. */
module Fnmatch {
  /** A non-NUL single-byte character. */
  type Ch = c: char | 0 < c as int < 128 witness 'a'

  const NOMATCH := 1

  /** The flags, and the locale's character classes. */
  datatype Flags = Flags(noescape: bool, period: bool, casefold: bool, isClass: (seq<Ch>, Ch) -> bool)

  /** What pat_next reports: a token and where it came from. */
  datatype Token = End | Star | Question | Bracket(body: seq<Ch>) | Lit(c: Ch)

  // ---- pattern tokens ---------------------------------------------------------

  /** The end of "[:name:]": the first k whose two bytes are z and ']', or e. */
  function ClassEnd(p: seq<Ch>, k: nat, e: nat, z: Ch): (r: nat)
    requires 0 < k <= e <= |p|
    ensures k <= r <= e
    ensures r < e ==> p[r - 1] == z && p[r] == ']'
    decreases e - k
  {
    if k == e || (p[k - 1] == z && p[k] == ']') then k else ClassEnd(p, k + 1, e, z)
  }

  predicate OpensClass(p: seq<Ch>, k: nat, e: nat)
    requires e <= |p|
  {
    k + 1 < e && p[k] == '[' && (p[k + 1] == ':' || p[k + 1] == '.' || p[k + 1] == '=')
  }

  function ClassStart(k: nat, e: nat): nat {
    if k + 2 < e then k + 3 else e
  }

  /** The index of the ']' that closes a bracket expression, or e. */
  function BracketEnd(p: seq<Ch>, k: nat, e: nat): (r: nat)
    requires k <= e <= |p|
    ensures k <= r <= e
    ensures r < e ==> p[r] == ']'
    decreases e - k
  {
    if k == e || p[k] == ']' then k
    else if OpensClass(p, k, e) then
      var c := ClassEnd(p, ClassStart(k, e), e, p[k + 1]);
      if c == e then e else BracketEnd(p, c + 1, e)
    else BracketEnd(p, k + 1, e)
  }

  /** Where the scan for the closing bracket starts: past "[", an optional
      negation and an optional leading ']'. */
  function BracketStart(p: seq<Ch>, i: nat, e: nat): (k: nat)
    requires i < e <= |p|
    ensures i < k <= e && k <= i + 3
  {
    var k := i + 1;
    var k := if k < e && (p[k] == '^' || p[k] == '!') then k + 1 else k;
    if k < e && p[k] == ']' then k + 1 else k
  }

  /** pat_next at p[i], seeing only p[..e] for brackets: the token and its width. */
  function Next(p: seq<Ch>, i: nat, e: nat, noescape: bool): (r: (Token, nat))
    requires i <= e <= |p|
    ensures r.0 == End <==> i == e
    ensures i < e ==> r.1 > 0
    ensures i < |p| ==> i + r.1 <= |p|
    ensures r.0 == Star ==> r.1 == 1
  {
    if i == e then (End, 0)
    else if p[i] == '\\' && i + 1 < |p| && !noescape then (Lit(p[i + 1]), 2)
    else if p[i] == '[' then
      var k := BracketEnd(p, BracketStart(p, i, e), e);
      if k == e then (Lit('['), 1) else (Bracket(p[i..k + 1]), k + 1 - i)
    else if p[i] == '*' then (Star, 1)
    else if p[i] == '?' then (Question, 1)
    else (Lit(p[i]), 1)
  }

  /** pat_next's bracket scan: the index of the closing ']', or e. */
  method ScanBracket(p: seq<Ch>, i: nat, e: nat) returns (k: nat)
    requires i < e <= |p|
    ensures k == BracketEnd(p, BracketStart(p, i, e), e)
  {
    hide ClassEnd, BracketEnd;
    k := i + 1;
    if k < e && (p[k] == '^' || p[k] == '!') { k := k + 1; }
    if k < e && p[k] == ']' { k := k + 1; }
    while k < e && p[k] != ']'
      invariant i < k <= e
      invariant BracketEnd(p, k, e) == BracketEnd(p, BracketStart(p, i, e), e)
    {
      ScanStep(p, k, e);
      if k + 1 < e && p[k] == '[' && (p[k + 1] == ':' || p[k + 1] == '.' || p[k + 1] == '=') {
        k := ScanClass(p, k, e);
        if k == e { return; }
      }
      k := k + 1;
    }
    ScanEnds(p, k, e);
  }

  lemma ScanStep(p: seq<Ch>, k: nat, e: nat)
    requires k < e <= |p| && p[k] != ']'
    ensures if OpensClass(p, k, e) then
              var c := ClassEnd(p, ClassStart(k, e), e, p[k + 1]);
              BracketEnd(p, k, e) == if c == e then e else BracketEnd(p, c + 1, e)
            else BracketEnd(p, k, e) == BracketEnd(p, k + 1, e)
  {
    hide ClassEnd;
  }

  lemma ScanEnds(p: seq<Ch>, k: nat, e: nat)
    requires k <= e <= |p| && (k == e || p[k] == ']')
    ensures BracketEnd(p, k, e) == k
  {
  }

  method ScanClass(p: seq<Ch>, open: nat, e: nat) returns (k: nat)
    requires e <= |p| && OpensClass(p, open, e)
    ensures k == ClassEnd(p, ClassStart(open, e), e, p[open + 1])
  {
    var z := p[open + 1];
    k := open + 2;
    if k < e { k := k + 1; }
    while k < e && (p[k - 1] != z || p[k] != ']')
      invariant open + 1 < k <= e
      invariant ClassEnd(p, k, e, z) == ClassEnd(p, ClassStart(open, e), e, z)
    {
      k := k + 1;
    }
  }

  /** pat_next */
  method PatNext(p: seq<Ch>, i: nat, e: nat, noescape: bool) returns (t: Token, step: nat)
    requires i <= e <= |p|
    ensures (t, step) == Next(p, i, e, noescape)
  {
    if i == e { return End, 0; }
    if p[i] == '\\' && i + 1 < |p| && !noescape { return Lit(p[i + 1]), 2; }
    if p[i] == '[' {
      var k := ScanBracket(p, i, e);
      if k == e { return Lit('['), 1; }
      return Bracket(p[i..k + 1]), k + 1 - i;
    }
    if p[i] == '*' { return Star, 1; }
    if p[i] == '?' { return Question, 1; }
    return Lit(p[i]), 1;
  }

  /** toks are the tokens read from p[i..] when they end exactly at e. */
  ghost predicate Tiles(p: seq<Ch>, i: nat, e: nat, toks: seq<Token>, noescape: bool)
    requires e <= |p|
    decreases |toks|
  {
    if toks == [] then i == e
    else
      && i < e
      && Next(p, i, |p|, noescape).0 == toks[0]
      && Tiles(p, i + Next(p, i, |p|, noescape).1, e, toks[1..], noescape)
  }

  /** The tokens of the rest of a pattern. */
  function Tokens(p: seq<Ch>, i: nat, noescape: bool): (toks: seq<Token>)
    requires i <= |p|
    ensures forall k :: 0 <= k < |toks| ==> toks[k] != End
    ensures i < |p| ==> toks != []
    decreases |p| - i
  {
    if i == |p| then [] else
      var (t, step) := Next(p, i, |p|, noescape);
      [t] + Tokens(p, i + step, noescape)
  }

  // ---- reading tokens under a limit -----------------------------------------------

  /** The limits e and e' give the same class end unless it lies beyond e. */
  lemma {:induction false} ClassEndStable(p: seq<Ch>, k: nat, e: nat, e': nat, z: Ch)
    requires 0 < k <= e <= e' <= |p|
    ensures ClassEnd(p, k, e, z) == if ClassEnd(p, k, e', z) < e then ClassEnd(p, k, e', z) else e
    decreases e - k
  {
    if k < e && !(p[k - 1] == z && p[k] == ']') { ClassEndStable(p, k + 1, e, e', z); }
  }

  lemma {:induction false} BracketEndStable(p: seq<Ch>, k: nat, e: nat, e': nat)
    requires k <= e <= e' <= |p|
    ensures BracketEnd(p, k, e) == if BracketEnd(p, k, e') < e then BracketEnd(p, k, e') else e
    decreases e - k
  {
    hide ClassEnd, BracketEnd;
    if k < e && p[k] != ']' {
      ScanStep(p, k, e);
      ScanStep(p, k, e');
      if OpensClass(p, k, e) {
        ClassEndStable(p, ClassStart(k, e), e, e', p[k + 1]);
        if ClassStart(k, e) < e {
          var c := ClassEnd(p, ClassStart(k, e), e, p[k + 1]);
          if c < e { BracketEndStable(p, c + 1, e, e'); }
        }
      } else if k + 1 < e {
        BracketEndStable(p, k + 1, e, e');
      }
    } else {
      ScanEnds(p, k, e);
      if k < e { ScanEnds(p, k, e'); }
    }
  }

  lemma BracketBodyStable(p: seq<Ch>, i: nat, e: nat, e': nat)
    requires i < e <= e' <= |p|
    ensures var k, k' := BracketEnd(p, BracketStart(p, i, e), e), BracketEnd(p, BracketStart(p, i, e'), e');
      k == if k' < e then k' else e
  {
    if BracketStart(p, i, e) < e {
      BracketEndStable(p, BracketStart(p, i, e), e, e');
    }
  }

  /** A token that ends within the limit is read the same with or without it. */
  lemma NextStable(p: seq<Ch>, i: nat, e: nat, noescape: bool)
    requires i < e <= |p| && i + Next(p, i, |p|, noescape).1 <= e
    ensures Next(p, i, e, noescape) == Next(p, i, |p|, noescape)
  {
    hide BracketEnd, BracketStart, ClassEnd;
    BracketBodyStable(p, i, e, |p|);
  }

  lemma {:induction false} TilesEnd(p: seq<Ch>, i: nat, e: nat, toks: seq<Token>, noescape: bool)
    requires e <= |p| && Tiles(p, i, e, toks, noescape)
    ensures i <= e
    decreases |toks|
  {
    if toks != [] { TilesEnd(p, i + Next(p, i, |p|, noescape).1, e, toks[1..], noescape); }
  }

  lemma {:induction false} TilesConcat(p: seq<Ch>, i: nat, m: nat, e: nat, a: seq<Token>, b: seq<Token>, noescape: bool)
    requires m <= |p| && e <= |p| && Tiles(p, i, m, a, noescape) && Tiles(p, m, e, b, noescape)
    ensures Tiles(p, i, e, a + b, noescape)
    decreases |a|
  {
    hide Next;
    TilesEnd(p, m, e, b, noescape);
    if a == [] {
      assert a + b == b;
    } else {
      assert (a + b)[1..] == a[1..] + b;
      TilesConcat(p, i + Next(p, i, |p|, noescape).1, m, e, a[1..], b, noescape);
    }
  }

  lemma {:induction false} TilesAreTokens(p: seq<Ch>, i: nat, toks: seq<Token>, noescape: bool)
    requires Tiles(p, i, |p|, toks, noescape)
    ensures i <= |p| && Tokens(p, i, noescape) == toks
    decreases |toks|
  {
    if toks != [] { TilesAreTokens(p, i + Next(p, i, |p|, noescape).1, toks[1..], noescape); }
  }

  // ---- bracket expressions ------------------------------------------------------

  /** One element of a bracket expression. */
  datatype Item = Exact(c: Ch) | One(c: Ch) | Range(lo: Ch, hi: Ch) | Class(name: seq<Ch>) | Unsupported

  predicate Covers(item: Item, k: Ch, kfold: Ch, isClass: (seq<Ch>, Ch) -> bool) {
    match item
    case Exact(c) => k == c
    case One(c) => k == c || kfold == c
    case Range(lo, hi) => lo <= k <= hi || lo <= kfold <= hi
    case Class(name) => isClass(name, k) || isClass(name, kfold)
    case Unsupported => false
  }

  /** b[i..] is scanned as elements up to the closing bracket, which ends b. */
  predicate Closes(b: seq<Ch>, i: nat) {
    0 < i < |b| && BracketEnd(b, i, |b|) == |b| - 1
  }

  /** The elements from b[i] on; wc is the last single character before b[i]. */
  function Items(b: seq<Ch>, i: nat, wc: Ch): (r: seq<Item>)
    requires Closes(b, i)
    decreases |b| - i
  {
    if b[i] == ']' then []
    else if b[i] == '-' && b[i + 1] != ']' then [Range(wc, b[i + 1])] + Items(b, i + 1, wc)
    else if OpensClass(b, i, |b|) then
      var c := ClassEnd(b, ClassStart(i, |b|), |b|, b[i + 1]);
      var name := b[i + 2..c - 1];
      [if b[i + 1] == ':' && |name| < 16 then Class(name) else Unsupported] + Items(b, c + 1, wc)
    else [One(b[i])] + Items(b, i + 1, b[i])
  }

  predicate Negated(b: seq<Ch>) {
    |b| > 1 && (b[1] == '^' || b[1] == '!')
  }

  predicate IsBracket(b: seq<Ch>) {
    && |b| >= 3 && b[0] == '['
    && BracketEnd(b, BracketStart(b, 0, |b|), |b|) == |b| - 1
  }

  /** Every element of a bracket expression, negation aside. */
  function AllItems(b: seq<Ch>): seq<Item>
    requires IsBracket(b)
  {
    var k := if Negated(b) then 2 else 1;
    if b[k] == ']' || b[k] == '-' then [Exact(b[k])] + Items(b, k + 1, b[k]) else Items(b, k, b[k - 1])
  }

  predicate Lists(items: seq<Item>, k: Ch, kfold: Ch, isClass: (seq<Ch>, Ch) -> bool) {
    items != [] && (Covers(items[0], k, kfold, isClass) || Lists(items[1..], k, kfold, isClass))
  }

  /** XCU section 2.13.1: some element covers the character, or none does
      and the list is negated. */
  predicate InBracket(b: seq<Ch>, k: Ch, kfold: Ch, isClass: (seq<Ch>, Ch) -> bool)
    requires IsBracket(b)
  {
    Negated(b) != Lists(AllItems(b), k, kfold, isClass)
  }

  lemma RangeStep(b: seq<Ch>, i: nat, wc: Ch, k: Ch, kfold: Ch, isClass: (seq<Ch>, Ch) -> bool)
    requires Closes(b, i) && b[i] == '-' && b[i + 1] != ']'
    ensures Closes(b, i + 1)
    ensures Lists(Items(b, i, wc), k, kfold, isClass) ==
      (Covers(Range(wc, b[i + 1]), k, kfold, isClass) || Lists(Items(b, i + 1, wc), k, kfold, isClass))
  {
    assert Items(b, i, wc)[1..] == Items(b, i + 1, wc);
  }

  /** Where the element after the one at b[i] begins. */
  lemma CloseNext(b: seq<Ch>, i: nat)
    requires Closes(b, i) && b[i] != ']'
    ensures !OpensClass(b, i, |b|) ==> Closes(b, i + 1)
    ensures OpensClass(b, i, |b|) ==>
      var c := ClassEnd(b, ClassStart(i, |b|), |b|, b[i + 1]); i + 2 < c < |b| - 1 && Closes(b, c + 1)
  {
  }

  lemma ClassStep(b: seq<Ch>, i: nat, wc: Ch, k: Ch, kfold: Ch, isClass: (seq<Ch>, Ch) -> bool)
    requires Closes(b, i) && OpensClass(b, i, |b|)
    ensures var c := ClassEnd(b, ClassStart(i, |b|), |b|, b[i + 1]);
      && i + 2 < c < |b| - 1 && Closes(b, c + 1)
      && var item := if b[i + 1] == ':' && c - i - 3 < 16 then Class(b[i + 2..c - 1]) else Unsupported;
      Lists(Items(b, i, wc), k, kfold, isClass) ==
      (Covers(item, k, kfold, isClass) || Lists(Items(b, c + 1, wc), k, kfold, isClass))
  {
    hide BracketEnd, ClassEnd;
    CloseNext(b, i);
    hide Closes;
    var c := ClassEnd(b, ClassStart(i, |b|), |b|, b[i + 1]);
    assert Items(b, i, wc)[1..] == Items(b, c + 1, wc);
  }

  lemma OneStep(b: seq<Ch>, i: nat, wc: Ch, k: Ch, kfold: Ch, isClass: (seq<Ch>, Ch) -> bool)
    requires Closes(b, i) && b[i] != ']' && (b[i] == '-' ==> b[i + 1] == ']') && !OpensClass(b, i, |b|)
    ensures Closes(b, i + 1)
    ensures Lists(Items(b, i, wc), k, kfold, isClass) ==
      (Covers(One(b[i]), k, kfold, isClass) || Lists(Items(b, i + 1, b[i]), k, kfold, isClass))
  {
    assert Items(b, i, wc)[1..] == Items(b, i + 1, b[i]);
  }

  /** How a bracket expression's list begins. */
  lemma FirstItem(b: seq<Ch>, k: Ch, kfold: Ch, isClass: (seq<Ch>, Ch) -> bool)
    requires IsBracket(b)
    ensures var p := if Negated(b) then 2 else 1;
      && p + 1 < |b| && Negated(b) == (b[1] == '^' || b[1] == '!')
      && (if b[p] == ']' || b[p] == '-' then
            Closes(b, p + 1)
            && Lists(AllItems(b), k, kfold, isClass) == (k == b[p] || Lists(Items(b, p + 1, b[p]), k, kfold, isClass))
          else Closes(b, p) && Lists(AllItems(b), k, kfold, isClass) == Lists(Items(b, p, b[p - 1]), k, kfold, isClass))
  {
    var p := if Negated(b) then 2 else 1;
    if b[p] == ']' || b[p] == '-' {
      assert AllItems(b)[1..] == Items(b, p + 1, b[p]);
    }
    hide Items;
  }

  /** match_bracket */
  method MatchBracket(b: seq<Ch>, k: Ch, kfold: Ch, isClass: (seq<Ch>, Ch) -> bool) returns (r: bool)
    requires IsBracket(b)
    ensures r == InBracket(b, k, kfold, isClass)
  {
    hide Lists, Items, AllItems, IsBracket, Closes, Negated;
    FirstItem(b, k, kfold, isClass);
    var inv := false;
    var p: nat := 1;
    if b[p] == '^' || b[p] == '!' {
      inv := true;
      p := p + 1;
    }
    if b[p] == ']' || b[p] == '-' {
      if k == b[p] { return !inv; }
      p := p + 1;
    }
    var listed := ListedFrom(b, p, b[p - 1], k, kfold, isClass);
    r := if listed then !inv else inv;
  }

  lemma ListEnds(b: seq<Ch>, i: nat, wc: Ch, k: Ch, kfold: Ch, isClass: (seq<Ch>, Ch) -> bool)
    requires Closes(b, i) && b[i] == ']'
    ensures !Lists(Items(b, i, wc), k, kfold, isClass)
  {
  }

  /** match_bracket's loop over the elements. */
  method ListedFrom(b: seq<Ch>, start: nat, before: Ch, k: Ch, kfold: Ch, isClass: (seq<Ch>, Ch) -> bool) returns (r: bool)
    requires Closes(b, start)
    ensures r == Lists(Items(b, start, before), k, kfold, isClass)
  {
    hide Lists, Items, ClassEnd, BracketEnd;
    var p: nat := start;
    var wc: Ch := before;
    while b[p] != ']'
      invariant Closes(b, p)
      invariant Lists(Items(b, p, wc), k, kfold, isClass) == Lists(Items(b, start, before), k, kfold, isClass)
      decreases |b| - p
    {
      if b[p] == '-' && b[p + 1] != ']' {
        RangeStep(b, p, wc, k, kfold, isClass);
        if wc <= b[p + 1] && (wc <= k <= b[p + 1] || wc <= kfold <= b[p + 1]) { return true; }
      } else if b[p] == '[' && (b[p + 1] == ':' || b[p + 1] == '.' || b[p + 1] == '=') {
        ClassStep(b, p, wc, k, kfold, isClass);
        var p0, z := p + 2, b[p + 1];
        p := ScanClass(b, p, |b|);
        if z == ':' && p - 1 - p0 < 16 {
          if isClass(b[p0..p - 1], k) || isClass(b[p0..p - 1], kfold) { return true; }
        }
      } else {
        OneStep(b, p, wc, k, kfold, isClass);
        wc := b[p];
        if wc == k || wc == kfold { return true; }
      }
      p := p + 1;
    }
    ListEnds(b, p, wc, k, kfold, isClass);
    r := false;
  }

  // ---- the wildcard relation ------------------------------------------------------

  /** casefold, for the characters of the C locale. */
  function Casefold(c: Ch): Ch {
    if 'a' <= c <= 'z' then c - 'a' + 'A' else if 'A' <= c <= 'Z' then c - 'A' + 'a' else c
  }

  /** One pattern token other than '*' against one character. */
  ghost predicate Fits(t: Token, c: Ch, f: Flags) {
    var fold := if f.casefold then Casefold(c) else c;
    match t
    case End => false
    case Star => false
    case Question => true
    case Bracket(b) => IsBracket(b) && InBracket(b, c, fold, f.isClass)
    case Lit(l) => c == l || fold == l
  }

  /** XCU section 2.13: '*' stands for any string, every other token for one character. */
  ghost predicate Matches(toks: seq<Token>, s: seq<Ch>, f: Flags)
    decreases |toks|
  {
    if toks == [] then s == []
    else if toks[0] == Star then exists i: nat :: i <= |s| && Matches(toks[1..], s[i..], f)
    else s != [] && Fits(toks[0], s[0], f) && Matches(toks[1..], s[1..], f)
  }

  /** The string matches the pattern. What that means for the pattern's text is in Wildcards. */
  ghost predicate Accepts(pat: seq<Ch>, s: seq<Ch>, f: Flags) { Matches(Tokens(pat, 0, f.noescape), s, f) }

  ghost predicate StarFree(toks: seq<Token>) {
    forall k :: 0 <= k < |toks| ==> toks[k] != Star && toks[k] != End
  }

  /** Star-free tokens against as many characters, position by position. */
  ghost predicate FitsAll(toks: seq<Token>, s: seq<Ch>, f: Flags) {
    |toks| == |s| && forall k :: 0 <= k < |toks| ==> Fits(toks[k], s[k], f)
  }

  /** A star-free front consumes exactly its own length. */
  lemma {:induction false} FrontMatches(front: seq<Token>, rest: seq<Token>, s: seq<Ch>, f: Flags)
    requires StarFree(front)
    ensures Matches(front + rest, s, f) <==>
      |front| <= |s| && FitsAll(front, s[..|front|], f) && Matches(rest, s[|front|..], f)
    decreases |front|
  {
    if front == [] {
      assert front + rest == rest && s[0..] == s;
    } else {
      var toks := front + rest;
      assert toks[0] == front[0] && toks[1..] == front[1..] + rest;
      if s != [] {
        FrontMatches(front[1..], rest, s[1..], f);
        if |front| <= |s| {
          assert s[1..][..|front| - 1] == s[..|front|][1..];
          assert s[1..][|front| - 1..] == s[|front|..];
          FitsSplit(front, s[..|front|], f);
        }
      }
    }
  }

  lemma FitsSplit(toks: seq<Token>, s: seq<Ch>, f: Flags)
    requires |toks| == |s| > 0
    ensures FitsAll(toks, s, f) <==> Fits(toks[0], s[0], f) && FitsAll(toks[1..], s[1..], f)
  {
    if Fits(toks[0], s[0], f) && FitsAll(toks[1..], s[1..], f) {
      forall k | 0 <= k < |toks| ensures Fits(toks[k], s[k], f) {
        if k > 0 { assert toks[1..][k - 1] == toks[k] && s[1..][k - 1] == s[k]; }
      }
    }
  }

  /** A leading '*' can also absorb a prefix of the string. */
  lemma StarAbsorbs(toks: seq<Token>, s: seq<Ch>, i: nat, f: Flags)
    requires i <= |s| && Matches([Star] + toks, s[i..], f)
    ensures Matches([Star] + toks, s, f)
  {
    assert ([Star] + toks)[1..] == toks;
    var j: nat :| j <= |s[i..]| && Matches(toks, s[i..][j..], f);
    assert s[i..][j..] == s[i + j..];
  }

  /** What TailMatches says of one front. */
  ghost predicate TailSplits(front: seq<Token>, tail: seq<Token>, s: seq<Ch>, f: Flags) {
    Matches(front + tail, s, f) <==>
      |tail| <= |s| && FitsAll(tail, s[|s| - |tail|..], f) && Matches(front, s[..|s| - |tail|], f)
  }

  lemma StarTail(tail: seq<Token>, s: seq<Ch>, f: Flags)
    requires StarFree(tail)
    ensures TailSplits([Star], tail, s, f)
  {
    var n := |s| - |tail|;
    assert ([Star] + tail)[1..] == tail;
    forall i: nat | i <= |s|
      ensures Matches(tail, s[i..], f) <==> i == n && FitsAll(tail, s[i..], f)
    {
      FrontMatches(tail, [], s[i..], f);
      assert tail + [] == tail;
      if |tail| == |s[i..]| { assert s[i..][..|tail|] == s[i..]; }
    }
    if n >= 0 {
      assert s[..n][n..] == [];
      assert Matches([Star][1..], s[..n][n..], f);
    }
  }

  lemma StarFrontTail(front: seq<Token>, tail: seq<Token>, s: seq<Ch>, f: Flags)
    requires front != [] && front[0] == Star
    requires forall i: nat :: i <= |s| ==> TailSplits(front[1..], tail, s[i..], f)
    ensures TailSplits(front, tail, s, f)
  {
    hide FitsAll;
    assert (front + tail)[1..] == front[1..] + tail;
    var n := |s| - |tail|;
    forall i: nat | i <= |s|
      ensures Matches(front[1..] + tail, s[i..], f) <==>
        i <= n && FitsAll(tail, s[n..], f) && Matches(front[1..], s[..n][i..], f)
    {
      assert TailSplits(front[1..], tail, s[i..], f);
      if i <= n {
        assert s[i..][n - i..] == s[n..];
        assert s[i..][..n - i] == s[..n][i..];
      }
    }
  }

  lemma FixedFrontTail(front: seq<Token>, tail: seq<Token>, s: seq<Ch>, f: Flags)
    requires front != [] && front[0] != Star
    requires s != [] ==> TailSplits(front[1..], tail, s[1..], f)
    ensures TailSplits(front, tail, s, f)
  {
    assert (front + tail)[1..] == front[1..] + tail;
    var n := |s| - |tail|;
    if n >= 1 {
      assert s[1..][n - 1..] == s[n..];
      assert s[1..][..n - 1] == s[..n][1..];
    }
  }

  /** The fixed-length tail: after the last '*', the tokens match exactly the
      last characters, and what precedes is matched independently. */
  lemma {:induction false} TailMatches(front: seq<Token>, tail: seq<Token>, s: seq<Ch>, f: Flags)
    requires StarFree(tail) && front != [] && front[|front| - 1] == Star
    ensures TailSplits(front, tail, s, f)
    decreases |front|
  {
    if |front| == 1 {
      assert front == [Star];
      StarTail(tail, s, f);
    } else if front[0] == Star {
      forall i: nat | i <= |s| ensures TailSplits(front[1..], tail, s[i..], f) {
        TailMatches(front[1..], tail, s[i..], f);
      }
      StarFrontTail(front, tail, s, f);
    } else {
      if s != [] { TailMatches(front[1..], tail, s[1..], f); }
      FixedFrontTail(front, tail, s, f);
    }
  }

  // ---- the algorithm ---------------------------------------------------------------

  /** If '*' then toks does not match here, '*' has to absorb a character. */
  lemma SkipOne(toks: seq<Token>, s: seq<Ch>, f: Flags)
    requires !Matches(toks, s, f)
    ensures Matches([Star] + toks, s, f) <==> s != [] && Matches([Star] + toks, s[1..], f)
  {
    assert ([Star] + toks)[1..] == toks && s[0..] == s;
    if Matches([Star] + toks, s, f) {
      var i: nat :| i <= |s| && Matches(toks, s[i..], f);
      assert s[1..][i - 1..] == s[i..];
    }
    if s != [] && Matches([Star] + toks, s[1..], f) { StarAbsorbs(toks, s, 1, f); }
  }

  /** Leftmost placement is never worse: once a component fits at the front,
      the rest of the pattern, which starts with '*', may take over right
      behind it. */
  lemma LeftmostPlacement(comp: seq<Token>, rest: seq<Token>, s: seq<Ch>, f: Flags)
    requires StarFree(comp) && |comp| <= |s| && FitsAll(comp, s[..|comp|], f)
    ensures Matches([Star] + comp + [Star] + rest, s, f) <==> Matches([Star] + rest, s[|comp|..], f)
  {
    var c := |comp|;
    var after := comp + ([Star] + rest);
    var all := [Star] + comp + [Star] + rest;
    assert all[1..] == after;
    if Matches(all, s, f) {
      var j: nat :| j <= |s| && Matches(after, s[j..], f);
      FrontMatches(comp, [Star] + rest, s[j..], f);
      assert s[j..][c..] == s[c..][j..];
      StarAbsorbs(rest, s[c..], j, f);
    }
    if Matches([Star] + rest, s[c..], f) {
      FrontMatches(comp, [Star] + rest, s, f);
      assert s[0..] == s;
    }
  }

  /** A component that runs out of string fits nowhere. */
  lemma TooShort(front: seq<Token>, rest: seq<Token>, s: seq<Ch>, f: Flags)
    requires StarFree(front) && |s| < |front|
    ensures !Matches([Star] + (front + rest), s, f)
  {
    assert ([Star] + (front + rest))[1..] == front + rest;
    forall i: nat | i <= |s| ensures !Matches(front + rest, s[i..], f) {
      FrontMatches(front, rest, s[i..], f);
    }
  }

  /** b is the part of p between i and e. */
  ghost predicate Cut(b: seq<Ch>, p: seq<Ch>, i: nat, e: nat) {
    i <= e <= |p| && |b| == e - i && forall j :: 0 <= j < |b| ==> b[j] == p[i + j]
  }

  /** p[a..e] is what q has d further on. */
  ghost predicate Same(p: seq<Ch>, q: seq<Ch>, d: int, a: nat, e: nat) {
    a <= e <= |p| && 0 <= a + d && e + d <= |q| && forall i :: a <= i < e ==> p[i] == q[i + d]
  }

  lemma {:induction false} ClassEndSame(p: seq<Ch>, q: seq<Ch>, d: int, a: nat, k: nat, e: nat, z: Ch)
    requires Same(p, q, d, a, e) && a < k <= e
    ensures 0 < k + d && ClassEnd(q, k + d, e + d, z) == ClassEnd(p, k, e, z) + d
    decreases e - k
  {
    if k < e {
      assert p[k - 1] == q[k - 1 + d] && p[k] == q[k + d];
      if !(p[k - 1] == z && p[k] == ']') { ClassEndSame(p, q, d, a, k + 1, e, z); }
    }
  }

  lemma {:induction false} BracketEndSame(p: seq<Ch>, q: seq<Ch>, d: int, a: nat, k: nat, e: nat)
    requires Same(p, q, d, a, e) && a <= k <= e
    ensures BracketEnd(q, k + d, e + d) == BracketEnd(p, k, e) + d
    decreases e - k
  {
    hide ClassEnd, BracketEnd;
    if k < e && p[k] != ']' {
      assert p[k] == q[k + d] && (k + 1 < e ==> p[k + 1] == q[k + 1 + d]);
      hide Same;
      ScanStep(p, k, e);
      ScanStep(q, k + d, e + d);
      if OpensClass(p, k, e) {
        ClassEndSame(p, q, d, a, ClassStart(k, e), e, p[k + 1]);
        var c := ClassEnd(p, ClassStart(k, e), e, p[k + 1]);
        if c < e { BracketEndSame(p, q, d, a, c + 1, e); }
      } else {
        BracketEndSame(p, q, d, a, k + 1, e);
      }
    } else {
      ScanEnds(p, k, e);
      ScanEnds(q, k + d, e + d);
    }
  }

  /** pat_next only reports well-formed bracket expressions. */
  lemma NextBracket(p: seq<Ch>, i: nat, e: nat, noescape: bool)
    requires i < e <= |p|
    ensures Next(p, i, e, noescape).0.Bracket? ==> IsBracket(Next(p, i, e, noescape).0.body)
  {
    hide BracketEnd, BracketStart, ClassEnd, IsBracket;
    if Next(p, i, e, noescape).0.Bracket? {
      var k := BracketEnd(p, BracketStart(p, i, e), e);
      BodyIsBracket(p[i..k + 1], p, i, k, e);
    }
  }

  lemma BodyIsBracket(b: seq<Ch>, p: seq<Ch>, i: nat, k: nat, e: nat)
    requires i < k < e <= |p| && Cut(b, p, i, k + 1) && p[i] == '['
    requires k == BracketEnd(p, BracketStart(p, i, e), e)
    ensures IsBracket(b)
  {
    hide BracketEnd, BracketStart, ClassEnd;
    BracketBodyStable(p, i, k + 1, e);
    StartShift(b, p, i, k);
    assert Same(b, p, i, 0, |b|);
    BracketEndSame(b, p, i, 0, BracketStart(p, i, k + 1) - i, |b|);
    assert b[0] == p[i];
  }

  lemma StartShift(b: seq<Ch>, p: seq<Ch>, i: nat, k: nat)
    requires k < |p| && p[k] == ']' && Cut(b, p, i, k + 1) && i < k && BracketStart(p, i, k + 1) <= k
    ensures |b| >= 3 && BracketStart(b, 0, |b|) == BracketStart(p, i, k + 1) - i
  {
    assert b[1] == p[i + 1];
    if |b| >= 3 { assert b[2] == p[i + 2]; }
  }

  /** The comparison that every loop of fnmatch_internal repeats. */
  method Compare(t: Token, k: Ch, f: Flags) returns (fits: bool)
    requires t != Star && (t.Bracket? ==> IsBracket(t.body))
    ensures fits == Fits(t, k, f)
  {
    var kfold: Ch := if f.casefold then Casefold(k) else k;
    if t.Bracket? {
      fits := MatchBracket(t.body, k, kfold, f.isClass);
    } else {
      fits := t == Question || t == Lit(k) || t == Lit(kfold);
    }
  }

  /** The loop up to the first '*': None when the answer is already known. */
  method Head(pat: seq<Ch>, str: seq<Ch>, f: Flags) returns (r: int, done: bool, pi: nat, si: nat)
    ensures pi <= |pat| && si <= |str|
    ensures done ==> (r == 0 <==> Matches(Tokens(pat, 0, f.noescape), str, f)) && (r == 0 || r == NOMATCH)
    ensures !done ==> (Matches(Tokens(pat, 0, f.noescape), str, f) <==>
        Matches([Star] + Tokens(pat, pi, f.noescape), str[si..], f))
  {
    hide Next, IsBracket, InBracket;
    r, done, pi, si := NOMATCH, true, 0, 0;
    while true
      invariant pi <= |pat| && si <= |str| && r == NOMATCH && done
      invariant Matches(Tokens(pat, 0, f.noescape), str, f) <==>
        Matches(Tokens(pat, pi, f.noescape), str[si..], f)
      decreases |pat| - pi
    {
      var c, pinc := PatNext(pat, pi, |pat|, f.noescape);
      ghost var toks := Tokens(pat, pi, f.noescape);
      if c == Star {
        pi := pi + 1;
        done := false;
        return;
      }
      if si == |str| {
        if c == End { r := 0; }
        return;
      }
      if c == End { return; }
      NextBracket(pat, pi, |pat|, f.noescape);
      var fits := Compare(c, str[si], f);
      assert toks[1..] == Tokens(pat, pi + pinc, f.noescape) && str[si..][1..] == str[si + 1..];
      if !fits { return; }
      si := si + 1;
      pi := pi + pinc;
    }
  }

  /** The loop that finds the last '*' and counts the tokens after it. */
  method FindTail(pat: seq<Ch>, pi: nat, noescape: bool)
    returns (ptail: nat, tailcnt: nat, ghost front: seq<Token>, ghost tail: seq<Token>)
    requires pi <= |pat|
    ensures pi <= ptail <= |pat| && tailcnt == |tail|
    ensures Tokens(pat, pi, noescape) == front + tail
    ensures Tiles(pat, pi, ptail, front, noescape) && Tiles(pat, ptail, |pat|, tail, noescape)
    ensures StarFree(tail) && Components(front)
  {
    hide Next, Tokens, Fits;
    var p: nat := pi;
    ptail, tailcnt, front, tail := pi, 0, [], [];
    while p < |pat|
      invariant pi <= ptail <= p <= |pat| && tailcnt == |tail|
      invariant Tiles(pat, pi, ptail, front, noescape) && Tiles(pat, ptail, p, tail, noescape)
      invariant StarFree(tail) && Components(front)
      decreases |pat| - p
    {
      var c, pinc := PatNext(pat, p, |pat|, noescape);
      assert Tiles(pat, p, p + pinc, [c], noescape) by { assert Tiles(pat, p + pinc, p + pinc, [c][1..], noescape); }
      TilesConcat(pat, ptail, p, p + pinc, tail, [c], noescape);
      if c == Star {
        TilesConcat(pat, pi, ptail, p + pinc, front, tail + [c], noescape);
        tailcnt, front, tail := 0, front + (tail + [c]), [];
        ptail := p + 1;
      } else {
        tailcnt, tail := tailcnt + 1, tail + [c];
      }
      p := p + pinc;
    }
    TilesConcat(pat, pi, ptail, |pat|, front, tail, noescape);
    TilesAreTokens(pat, pi, front + tail, noescape);
  }

  /** The loop that matches the tail tokens against the last characters. */
  method MatchTail(pat: seq<Ch>, ptail: nat, s: seq<Ch>, f: Flags, ghost tail: seq<Token>) returns (ok: bool)
    requires ptail <= |pat| && Tiles(pat, ptail, |pat|, tail, f.noescape)
    requires StarFree(tail) && |tail| == |s|
    ensures ok == FitsAll(tail, s, f)
  {
    hide Next, IsBracket, InBracket, Fits, Tokens;
    var p: nat, i: nat := ptail, 0;
    while true
      invariant ptail <= p <= |pat| && 0 <= i <= |s|
      invariant Tiles(pat, p, |pat|, tail[i..], f.noescape)
      invariant FitsAll(tail[..i], s[..i], f)
      decreases |s| - i
    {
      var c, pinc := PatNext(pat, p, |pat|, f.noescape);
      if i == |s| {
        assert tail[..i] == tail && s[..i] == s;
        return c == End;
      }
      assert tail[i..][0] == tail[i] == c && tail[i..][1..] == tail[i + 1..];
      TilesEnd(pat, p + pinc, |pat|, tail[i + 1..], f.noescape);
      NextBracket(pat, p, |pat|, f.noescape);
      var fits := Compare(c, s[i], f);
      if !fits { return false; }
      assert tail[..i + 1] == tail[..i] + [tail[i]] && s[..i + 1] == s[..i] + [s[i]];
      p, i := p + pinc, i + 1;
    }
  }

  /** Components: what is left of them ends in '*', and no token is End. */
  ghost predicate Components(toks: seq<Token>) {
    (toks == [] || toks[|toks| - 1] == Star) && forall k :: 0 <= k < |toks| ==> toks[k] != End
  }

  datatype Placement = Placed(pnext: nat, snext: nat) | Misfit | OutOfString

  lemma ComponentsRest(comp: seq<Token>, rest: seq<Token>, toks: seq<Token>)
    requires Components(toks) && toks == comp + [Star] + rest
    ensures Components(rest)
  {
    forall k | 0 <= k < |rest| ensures rest[k] == toks[|comp| + 1 + k] {}
  }

  /** One attempt to place the component at pat[pi..] at the front of s. */
  method TryComponent(pat: seq<Ch>, pi: nat, endpat: nat, s: seq<Ch>, f: Flags, ghost toks: seq<Token>)
    returns (r: Placement, ghost comp: seq<Token>, ghost rest: seq<Token>)
    requires pi < endpat <= |pat| && Tiles(pat, pi, endpat, toks, f.noescape)
    requires Components(toks)
    ensures r.Placed? ==>
      && r.snext == |comp| <= |s| && pi < r.pnext <= endpat
      && StarFree(comp) && toks == comp + [Star] + rest && FitsAll(comp, s[..|comp|], f)
      && Tiles(pat, r.pnext, endpat, rest, f.noescape)
    ensures r.Misfit? ==> s != [] && !Matches(toks, s, f)
    ensures r.OutOfString? ==> !Matches([Star] + toks, s, f)
  {
    hide Next, IsBracket, InBracket, Fits, Matches, Tokens, FitsAll, StarFree, Components;
    var p: nat, i: nat := pi, 0;
    comp, rest := [], toks;
    NothingYet(toks, s, f);
    while true
      invariant pi <= p <= endpat && 0 <= i <= |s| && |comp| == i
      invariant toks == comp + rest && StarFree(comp) && rest != []
      invariant Tiles(pat, p, endpat, rest, f.noescape)
      invariant FitsAll(comp, s[..i], f)
      decreases |rest|
    {
      TilesEnd(pat, p + Next(pat, p, |pat|, f.noescape).1, endpat, rest[1..], f.noescape);
      NextStable(pat, p, endpat, f.noescape);
      var c, pinc := PatNext(pat, p, endpat, f.noescape);
      p := p + pinc;
      assert rest == [c] + rest[1..];
      NextToken(comp, c, rest[1..], toks);
      if c == Star {
        rest := rest[1..];
        return Placed(p, i), comp, rest;
      }
      if i == |s| {
        TooShort(comp + [c], rest[1..], s, f);
        return OutOfString, comp, rest;
      }
      NextBracket(pat, p - pinc, |pat|, f.noescape);
      var fits := Compare(c, s[i], f);
      assert s[..i + 1] == s[..i] + [s[i]];
      FitsSnoc(comp, c, s[..i], s[i], f);
      if !fits {
        FrontMatches(comp + [c], rest[1..], s, f);
        return Misfit, comp, rest;
      }
      comp, rest := comp + [c], rest[1..];
      i := i + 1;
    }
  }

  lemma NothingYet(toks: seq<Token>, s: seq<Ch>, f: Flags)
    ensures StarFree([]) && FitsAll([], s[..0], f) && [] + toks == toks
  {
  }

  lemma FitsSnoc(toks: seq<Token>, c: Token, s: seq<Ch>, k: Ch, f: Flags)
    requires FitsAll(toks, s, f)
    ensures FitsAll(toks + [c], s + [k], f) <==> Fits(c, k, f)
  {
    hide Fits;
    assert (toks + [c])[|toks|] == c && (s + [k])[|s|] == k;
  }

  /** What the next token of a component can be. */
  lemma NextToken(comp: seq<Token>, c: Token, rest: seq<Token>, toks: seq<Token>)
    requires Components(toks) && StarFree(comp) && toks == comp + ([c] + rest)
    ensures c == Star ==> toks == comp + [Star] + rest
    ensures c != Star ==> toks == (comp + [c]) + rest && StarFree(comp + [c]) && rest != []
  {
    assert toks[|comp|] == c;
    assert toks[|toks| - 1] == if rest == [] then c else rest[|rest| - 1];
  }

  /** fnmatch_internal */
  method FnmatchInternal(pat: seq<Ch>, str: seq<Ch>, f: Flags) returns (r: int)
    ensures r == 0 || r == NOMATCH
    ensures r == 0 <==>
      (f.period && str != [] && str[0] == '.' ==> pat != [] && pat[0] == '.')
      && Accepts(pat, str, f)
  {
    hide Next, Tiles, Tokens, Matches, FitsAll, Fits, StarFree;
    if f.period && str != [] && str[0] == '.' && (pat == [] || pat[0] != '.') { return NOMATCH; }
    var done, pi, si;
    r, done, pi, si := Head(pat, str, f);
    if done { return; }
    var endpat, tailcnt, front, tail := FindTail(pat, pi, f.noescape);
    assert [Star] + (front + tail) == ([Star] + front) + tail;
    TailMatches([Star] + front, tail, str[si..], f);
    if |str| - si < tailcnt { return NOMATCH; }
    var stail := |str| - tailcnt;
    assert str[si..][|str[si..]| - tailcnt..] == str[stail..];
    assert str[si..][..|str[si..]| - tailcnt] == str[si..stail];
    var tailok := MatchTail(pat, endpat, str[stail..], f, tail);
    if !tailok { return NOMATCH; }
    r := Sea(pat, pi, endpat, str[si..stail], f, front);
  }

  lemma LoneStar(s: seq<Ch>, f: Flags)
    ensures Matches([Star], s, f)
  {
    assert Matches([Star][1..], s[|s|..], f);
  }

  /** The loop over the star-separated components. */
  method Sea(pat: seq<Ch>, pstart: nat, endpat: nat, s: seq<Ch>, f: Flags, ghost front: seq<Token>) returns (r: int)
    requires pstart <= endpat <= |pat| && Tiles(pat, pstart, endpat, front, f.noescape)
    requires Components(front)
    ensures r == 0 || r == NOMATCH
    ensures r == 0 <==> Matches([Star] + front, s, f)
  {
    hide Next, Fits, Matches, FitsAll;
    var pi, si := pstart, 0;
    ghost var toks := front;
    assert s[0..] == s;
    while pi < endpat
      invariant pstart <= pi <= endpat && 0 <= si <= |s|
      invariant Tiles(pat, pi, endpat, toks, f.noescape)
      invariant Components(toks)
      invariant Matches([Star] + front, s, f) <==> Matches([Star] + toks, s[si..], f)
      decreases endpat - pi, |s| - si
    {
      var place, comp, rest := TryComponent(pat, pi, endpat, s[si..], f, toks);
      match place
      case OutOfString => return NOMATCH;
      case Placed(pnext, snext) =>
        LeftmostPlacement(comp, rest, s[si..], f);
        assert [Star] + toks == [Star] + comp + [Star] + rest;
        assert s[si..][snext..] == s[si + snext..];
        ComponentsRest(comp, rest, toks);
        pi, si, toks := pnext, si + snext, rest;
      case Misfit =>
        SkipOne(toks, s[si..], f);
        assert s[si..][1..] == s[si + 1..];
        si := si + 1;
    }
    LoneStar(s[si..], f);
    assert [Star] + toks == [Star];
    r := 0;
  }
}
