/** What patterns of fnmatch mean, in terms of their text. */
module Wildcards {
  import opened Fnmatch

  type Text = seq<Ch>

  /** The other case of a letter. */
  predicate OtherCase(a: Ch, b: Ch) {
    ('A' <= a <= 'Z' && b as int == a as int + 32) || ('A' <= b <= 'Z' && a as int == b as int + 32)
  }

  /** c is l, or with case folding its other case. */
  predicate Alike(c: Ch, l: Ch, f: Flags) { c == l || (f.casefold && OtherCase(c, l)) }

  lemma FoldIsOther(c: Ch, l: Ch, f: Flags)
    ensures c == l || (if f.casefold then Casefold(c) else c) == l <==> Alike(c, l, f)
  {
  }

  // ---- the rest of a pattern -------------------------------------------------------------------------

  /** A token is the same at the front of what is left of a pattern. */
  lemma NextLater(p: Text, i: nat, noescape: bool)
    requires i <= |p|
    ensures Next(p, i, |p|, noescape) == Next(p[i..], 0, |p| - i, noescape)
  {
    hide BracketEnd, ClassEnd;
    var q := p[i..];
    assert |q| == |p| - i;
    if i < |p| && p[i] == '[' {
      assert Same(q, p, i, 0, |q|);
      var k := BracketStart(q, 0, |q|);
      assert BracketStart(p, i, |p|) == k + i;
      BracketEndSame(q, p, i, 0, k, |q|);
      var e := BracketEnd(q, k, |q|);
      if e < |q| { assert p[i..e + i + 1] == q[0..e + 1]; }
    }
  }

  lemma {:induction false} TokensLater(p: Text, i: nat, noescape: bool)
    requires i <= |p|
    ensures Tokens(p, i, noescape) == Tokens(p[i..], 0, noescape)
    decreases |p| - i
  {
    hide Next;
    if i < |p| {
      NextLater(p, i, noescape);
      var step := Next(p, i, |p|, noescape).1;
      TokensLater(p, i + step, noescape);
      TokensLater(p[i..], step, noescape);
      assert p[i..][step..] == p[i + step..];
    }
  }

  // ---- patterns one after the other -----------------------------------------------------------------

  /** A pattern for one character: an ordinary character or '?', an escaped character, or a
      bracket expression. */
  ghost predicate IsAtom(p: Text, noescape: bool) {
    || (|p| == 1 && p[0] != '*' && p[0] != '[' && p[0] != '\\')
    || (p == ['\\'] && noescape)
    || (|p| == 2 && p[0] == '\\' && !noescape)
    || IsBracket(p)
  }

  /** An atom is one token, whatever follows it. */
  lemma AtomIsNext(p: Text, q: Text, noescape: bool)
    requires IsAtom(p, noescape)
    ensures Next(p + q, 0, |p + q|, noescape) == Next(p, 0, |p|, noescape)
    ensures Next(p, 0, |p|, noescape).1 == |p| && Next(p, 0, |p|, noescape).0 != Star && Next(p, 0, |p|, noescape).0 != End
  {
    hide BracketEnd, ClassEnd;
    var w := p + q;
    assert forall i :: 0 <= i < |p| ==> w[i] == p[i];
    if IsBracket(p) {
      assert Same(p, w, 0, 0, |p|);
      var k := BracketStart(p, 0, |p|);
      BracketEndSame(p, w, 0, 0, k, |p|);
      assert BracketStart(w, 0, |p|) == k;
      BracketBodyStable(w, 0, |p|, |w|);
      assert w[0..|p|] == p && p[0..|p|] == p;
    }
  }

  /** Nothing matches only nothing. */
  lemma Nothing(s: Text, f: Flags)
    ensures Accepts([], s, f) <==> s == []
  {
  }

  /** An atom before a pattern takes one character, which it matches by itself. */
  lemma AtomThen(p: Text, q: Text, s: Text, f: Flags)
    requires IsAtom(p, f.noescape)
    ensures Accepts(p + q, s, f) <==> s != [] && Accepts(p, s[..1], f) && Accepts(q, s[1..], f)
  {
    AtomTokens(p, q, f.noescape);
    AtomTokens(p, [], f.noescape);
    assert p + [] == p;
    hide Next;
    var t := Next(p, 0, |p|, f.noescape).0;
    assert Tokens([], 0, f.noescape) == [];
    hide Tokens;
    OneThen(t, Tokens(q, 0, f.noescape), s, f);
    OneThen(t, [], s[..if s == [] then 0 else 1], f);
  }

  lemma AtomTokens(p: Text, q: Text, noescape: bool)
    requires IsAtom(p, noescape)
    ensures Tokens(p + q, 0, noescape) == [Next(p, 0, |p|, noescape).0] + Tokens(q, 0, noescape)
    ensures Next(p, 0, |p|, noescape).0 != Star
  {
    AtomIsNext(p, q, noescape);
    hide Next;
    TokensLater(p + q, |p|, noescape);
    assert (p + q)[|p|..] == q;
  }

  lemma OneThen(t: Token, rest: seq<Token>, s: Text, f: Flags)
    requires t != Star
    ensures Matches([t] + rest, s, f) <==> s != [] && Fits(t, s[0], f) && Matches(rest, s[1..], f)
  {
    assert ([t] + rest)[1..] == rest;
  }

  /** An atom matches strings of one character only. */
  lemma AtomTakesOne(p: Text, s: Text, f: Flags)
    requires IsAtom(p, f.noescape) && Accepts(p, s, f)
    ensures |s| == 1
  {
    AtomThen(p, [], s, f);
    assert p + [] == p;
    Nothing(s[1..], f);
  }

  /** '*' matches any string. */
  lemma StarThen(q: Text, s: Text, f: Flags)
    ensures Accepts(['*'] + q, s, f) <==> exists i: nat :: i <= |s| && Accepts(q, s[i..], f)
  {
    var w := ['*'] + q;
    assert Next(w, 0, |w|, f.noescape) == (Star, 1);
    hide Next;
    TokensLater(w, 1, f.noescape);
    assert w[1..] == q;
    assert Tokens(w, 0, f.noescape) == [Star] + Tokens(q, 0, f.noescape);
    assert ([Star] + Tokens(q, 0, f.noescape))[1..] == Tokens(q, 0, f.noescape);
    hide Tokens;
    forall i: nat | i <= |s| ensures Accepts(q, s[i..], f) <==> Matches(Tokens(q, 0, f.noescape), s[i..], f) {}
  }

  // ---- single characters ------------------------------------------------------------------------------

  lemma AtomMatches(p: Text, c: Ch, f: Flags)
    requires IsAtom(p, f.noescape)
    ensures Accepts(p, [c], f) <==> Fits(Next(p, 0, |p|, f.noescape).0, c, f)
  {
    AtomTokens(p, [], f.noescape);
    assert p + [] == p;
    hide Next;
    OneThen(Next(p, 0, |p|, f.noescape).0, [], [c], f);
    assert Tokens([], 0, f.noescape) == [] && [c][1..] == [];
  }

  /** '?' matches every character. */
  lemma AnyCharacter(c: Ch, f: Flags)
    ensures Accepts(['?'], [c], f)
  {
    AtomMatches(['?'], c, f);
  }

  /** A character that is not special matches itself; so does a backslash that escapes
      nothing. */
  lemma Ordinary(l: Ch, c: Ch, f: Flags)
    requires l != '*' && l != '?' && l != '[' && (l == '\\' ==> f.noescape)
    ensures Accepts([l], [c], f) <==> Alike(c, l, f)
  {
    AtomMatches([l], c, f);
    FoldIsOther(c, l, f);
  }

  /** A '[' that nothing closes matches itself, and what follows it is read as usual. */
  lemma LoneBracket(q: Text, s: Text, f: Flags)
    requires ']' !in q
    ensures Accepts(['['] + q, s, f) <==> s != [] && s[0] == '[' && Accepts(q, s[1..], f)
  {
    var w := ['['] + q;
    assert forall i :: 0 <= i < |w| ==> w[i] != ']';
    assert Next(w, 0, |w|, f.noescape) == (Lit('['), 1);
    hide Next;
    TokensLater(w, 1, f.noescape);
    assert w[1..] == q;
    assert Tokens(w, 0, f.noescape) == [Lit('[')] + Tokens(q, 0, f.noescape);
    hide Tokens;
    OneThen(Lit('['), Tokens(q, 0, f.noescape), s, f);
    if s != [] { FoldIsOther(s[0], '[', f); }
  }

  /** An escaped character matches itself, special or not. */
  lemma Escaped(l: Ch, c: Ch, f: Flags)
    requires !f.noescape
    ensures Accepts(['\\', l], [c], f) <==> Alike(c, l, f)
  {
    AtomMatches(['\\', l], c, f);
    FoldIsOther(c, l, f);
  }

  // ---- bracket expressions -----------------------------------------------------------------------------

  /** A list without classes that closes only where its bracket expression ends, and does not
      begin with a negation. */
  ghost predicate Plain(body: Text) {
    && body != [] && body[0] != '!' && body[0] != '^'
    && (forall i :: 0 < i < |body| ==> body[i] != ']')
    && (forall i :: 0 <= i < |body| - 1 ==> !(body[i] == '[' && (body[i + 1] == ':' || body[i + 1] == '.' || body[i + 1] == '=')))
  }

  function Listed(body: Text): Text { ['['] + body + [']'] }
  function Unlisted(body: Text, sign: Ch): Text { ['[', sign] + body + [']'] }

  lemma {:induction false} ScansTo(b: Text, k: nat)
    requires k < |b| && b[|b| - 1] == ']' && (forall i :: k <= i < |b| - 1 ==> b[i] != ']' && !OpensClass(b, i, |b|))
    ensures BracketEnd(b, k, |b|) == |b| - 1
    decreases |b| - k
  {
    if k < |b| - 1 { ScansTo(b, k + 1); }
  }

  lemma PlainIsBracket(body: Text)
    requires Plain(body)
    ensures IsBracket(Listed(body)) && !Negated(Listed(body))
  {
    var b := Listed(body);
    assert forall i :: 0 <= i < |body| ==> b[i + 1] == body[i];
    forall i | 1 < i < |b| - 1 ensures b[i] != ']' { assert b[i] == body[i - 1]; }
    forall i | 1 <= i < |b| - 1 ensures !OpensClass(b, i, |b|) {
      assert b[i] == body[i - 1];
      if i < |b| - 2 { assert b[i + 1] == body[i]; }
    }
    ScansTo(b, BracketStart(b, 0, |b|));
  }

  /** A bracket expression and one with a negation in front close alike. */
  lemma NegationCloses(body: Text, sign: Ch)
    requires (sign == '!' || sign == '^') && body != [] && body[0] != '!' && body[0] != '^'
    ensures IsBracket(Unlisted(body, sign)) <==> IsBracket(Listed(body))
    ensures Negated(Unlisted(body, sign)) && !Negated(Listed(body))
  {
    var a, b := Listed(body), Unlisted(body, sign);
    assert forall i :: 1 <= i < |a| ==> a[i] == b[i + 1];
    assert b[2] == a[1] == body[0];
    assert Same(a, b, 1, 1, |a|);
    var k := BracketStart(a, 0, |a|);
    assert BracketStart(b, 0, |b|) == k + 1;
    BracketEndSame(a, b, 1, 1, k, |a|);
  }

  lemma ClosesSame(p: Text, q: Text, d: int, a: nat, i: nat)
    requires Same(p, q, d, a, |p|) && |q| == |p| + d && a <= i && Closes(p, i) && 0 < i + d
    ensures Closes(q, i + d) && p[i] == q[i + d] && (p[i] != ']' ==> i + 1 < |p| && p[i + 1] == q[i + 1 + d])
    ensures OpensClass(p, i, |p|) <==> OpensClass(q, i + d, |q|)
  {
    BracketEndSame(p, q, d, a, i, |p|);
  }

  lemma {:induction false} ItemsSame(p: Text, q: Text, d: int, a: nat, i: nat, wc: Ch)
    requires Same(p, q, d, a, |p|) && |q| == |p| + d && a <= i && Closes(p, i) && 0 < i + d
    ensures Closes(q, i + d) && Items(q, i + d, wc) == Items(p, i, wc)
    decreases |p| - i
  {
    hide BracketEnd, ClassEnd, OpensClass, Same;
    ClosesSame(p, q, d, a, i);
    if p[i] != ']' {
      CloseNext(p, i);
      hide Closes;
      if p[i] == '-' && p[i + 1] != ']' {
        NotOpening(p, i);
        ItemsSame(p, q, d, a, i + 1, wc);
      } else if OpensClass(p, i, |p|) {
        var c := ClassEnd(p, ClassStart(i, |p|), |p|, p[i + 1]);
        ClassBegins(p, i);
        ClassBegins(q, i + d);
        ClassSame(p, q, d, a, i, p[i + 1], c);
        ItemsSame(p, q, d, a, c + 1, wc);
      } else {
        ItemsSame(p, q, d, a, i + 1, p[i]);
      }
    }
  }

  lemma ClassBegins(p: Text, i: nat)
    requires Closes(p, i) && OpensClass(p, i, |p|)
    ensures i + 3 <= |p| && ClassStart(i, |p|) == i + 3
  {
    CloseNext(p, i);
  }

  lemma NotOpening(p: Text, i: nat)
    requires i < |p| && p[i] == '-'
    ensures !OpensClass(p, i, |p|)
  {
  }

  lemma ClassSame(p: Text, q: Text, d: int, a: nat, i: nat, z: Ch, c: nat)
    requires Same(p, q, d, a, |p|) && |q| == |p| + d && a <= i && 0 <= i + d && i + 2 < c < |p| - 1
    requires c == ClassEnd(p, i + 3, |p|, z)
    ensures ClassEnd(q, i + d + 3, |q|, z) == c + d && p[i + 2..c - 1] == q[i + d + 2..c + d - 1]
  {
    hide ClassEnd, Same;
    ClassEndSame(p, q, d, a, i + 3, |p|, z);
    SliceSame(p, q, d, a, i + 2, c - 1);
  }

  lemma SliceSame(p: Text, q: Text, d: int, a: nat, x: nat, y: nat)
    requires Same(p, q, d, a, |p|) && a <= x <= y <= |p| && 0 <= x + d && y + d <= |q|
    ensures p[x..y] == q[x + d..y + d]
  {
  }

  function Fold(c: Ch, f: Flags): Ch { if f.casefold then Casefold(c) else c }

  lemma BracketMatches(b: Text, c: Ch, f: Flags)
    requires IsBracket(b)
    ensures Accepts(b, [c], f) <==> InBracket(b, c, Fold(c, f), f.isClass)
  {
    AtomMatches(b, c, f);
    assert b[0..|b|] == b;
  }

  /** The list goes on after leading classes with a range that has no start of its own. */
  predicate StartlessRange(b: Text, i: nat)
    requires Closes(b, i)
    decreases |b| - i
  {
    if b[i] == ']' then false
    else if OpensClass(b, i, |b|) then
      CloseNext(b, i);
      StartlessRange(b, ClassEnd(b, ClassStart(i, |b|), |b|, b[i + 1]) + 1)
    else b[i] == '-' && b[i + 1] != ']'
  }

  /** What stands before the list only matters for such a range. */
  lemma {:induction false} BeforeIrrelevant(b: Text, i: nat, x: Ch, y: Ch)
    requires Closes(b, i) && !StartlessRange(b, i)
    ensures Items(b, i, x) == Items(b, i, y)
    decreases |b| - i
  {
    if b[i] != ']' && OpensClass(b, i, |b|) {
      CloseNext(b, i);
      BeforeIrrelevant(b, ClassEnd(b, ClassStart(i, |b|), |b|, b[i + 1]) + 1, x, y);
    }
  }

  lemma ListBegins(body: Text)
    requires body != [] && body[0] != '!' && body[0] != '^' && IsBracket(Listed(body))
    ensures |Listed(body)| > 2 && (Listed(body)[1] != ']' ==> Closes(Listed(body), 1))
  {
  }

  /** A list that has no range without a start of its own, right after leading classes. */
  ghost predicate Startful(body: Text) {
    var b := Listed(body);
    body != [] && (body[0] != ']' && body[0] != '-' && Closes(b, 1) ==> !StartlessRange(b, 1))
  }

  /** A negated bracket expression matches a character exactly when the same without the
      negation does not, if the list has no startless range: such a range starts at the
      character before the list, which is not the same one. */
  lemma Negation(body: Text, sign: Ch, c: Ch, f: Flags)
    requires (sign == '!' || sign == '^') && body != [] && body[0] != '!' && body[0] != '^' && IsBracket(Listed(body))
    requires Startful(body)
    ensures IsBracket(Unlisted(body, sign))
    ensures Accepts(Unlisted(body, sign), [c], f) <==> !Accepts(Listed(body), [c], f)
  {
    var a, b := Listed(body), Unlisted(body, sign);
    NegationCloses(body, sign);
    BracketMatches(a, c, f);
    BracketMatches(b, c, f);
    SameItems(body, sign);
  }

  lemma OneFurther(body: Text, sign: Ch)
    requires body != []
    ensures var a, b := Listed(body), Unlisted(body, sign);
      |b| == |a| + 1 && Same(a, b, 1, 1, |a|) && b[2] == a[1] == body[0] && a[0] == '[' && b[1] == sign
  {
    var a, b := Listed(body), Unlisted(body, sign);
    assert forall i :: 1 <= i < |a| ==> a[i] == b[i + 1];
  }

  lemma ListCloses(b: Text)
    requires IsBracket(b) && !Negated(b)
    ensures if b[1] == ']' || b[1] == '-' then Closes(b, 2) else Closes(b, 1)
  {
  }

  lemma SameItems(body: Text, sign: Ch)
    requires (sign == '!' || sign == '^') && body != [] && body[0] != '!' && body[0] != '^' && Startful(body)
    requires IsBracket(Listed(body)) && IsBracket(Unlisted(body, sign)) && Negated(Unlisted(body, sign)) && !Negated(Listed(body))
    ensures AllItems(Unlisted(body, sign)) == AllItems(Listed(body))
  {
    hide Items, StartlessRange, Same, ClassEnd, BracketEnd;
    var a, b := Listed(body), Unlisted(body, sign);
    OneFurther(body, sign);
    ListCloses(a);
    if a[1] == ']' || a[1] == '-' {
      ItemsSame(a, b, 1, 1, 2, a[1]);
    } else {
      BeforeIrrelevant(a, 1, a[0], b[1]);
      ItemsSame(a, b, 1, 1, 1, b[1]);
    }
  }

  lemma PlainStarts(body: Text)
    requires Plain(body)
    ensures IsBracket(Listed(body)) && Startful(body)
  {
    PlainIsBracket(body);
    var b := Listed(body);
    assert b[1] == body[0];
    if |body| > 1 { assert b[2] == body[1]; }
  }

  /** The ends of the ranges that have no start of their own: those before the first single
      character of a list. */
  function Ends(b: Text, i: nat): seq<Ch>
    requires Closes(b, i)
    decreases |b| - i
  {
    if b[i] == ']' then [] else
    CloseNext(b, i);
    if b[i] == '-' && b[i + 1] != ']' then [b[i + 1]] + Ends(b, i + 1)
    else if OpensClass(b, i, |b|) then Ends(b, ClassEnd(b, ClassStart(i, |b|), |b|, b[i + 1]) + 1)
    else []
  }

  /** The list without those ranges covers k. */
  ghost predicate CoversOtherwise(b: Text, i: nat, k: Ch, fold: Ch, f: Flags)
    requires Closes(b, i)
    decreases |b| - i
  {
    if b[i] == ']' then false else
    CloseNext(b, i);
    if b[i] == '-' && b[i + 1] != ']' then CoversOtherwise(b, i + 1, k, fold, f)
    else if OpensClass(b, i, |b|) then
      var c := ClassEnd(b, ClassStart(i, |b|), |b|, b[i + 1]);
      || (b[i + 1] == ':' && c - i - 3 < 16 && (f.isClass(b[i + 2..c - 1], k) || f.isClass(b[i + 2..c - 1], fold)))
      || CoversOtherwise(b, c + 1, k, fold, f)
    else k == b[i] || fold == b[i] || Lists(Items(b, i + 1, b[i]), k, fold, f.isClass)
  }

  /** k or its other case lies from x to one of ends. */
  ghost predicate Spans(x: Ch, ends: seq<Ch>, k: Ch, fold: Ch) {
    exists j :: 0 <= j < |ends| && (x <= k <= ends[j] || x <= fold <= ends[j])
  }

  lemma SpansCons(x: Ch, e: Ch, ends: seq<Ch>, k: Ch, fold: Ch)
    ensures Spans(x, [e] + ends, k, fold) <==> x <= k <= e || x <= fold <= e || Spans(x, ends, k, fold)
  {
    var all := [e] + ends;
    assert all[0] == e && forall j :: 0 <= j < |ends| ==> all[j + 1] == ends[j];
  }

  lemma {:induction false} ItemsApart(b: Text, i: nat, x: Ch, k: Ch, fold: Ch, f: Flags)
    requires Closes(b, i)
    ensures Lists(Items(b, i, x), k, fold, f.isClass) <==> CoversOtherwise(b, i, k, fold, f) || Spans(x, Ends(b, i), k, fold)
    decreases |b| - i
  {
    hide BracketEnd, ClassEnd, Lists, Items, Spans;
    if b[i] == ']' {
      NothingListed(b, i, x, k, fold, f);
    } else {
      CloseNext(b, i);
      if b[i] == '-' && b[i + 1] != ']' {
        RangeStep(b, i, x, k, fold, f.isClass);
        SpansCons(x, b[i + 1], Ends(b, i + 1), k, fold);
        ItemsApart(b, i + 1, x, k, fold, f);
      } else if OpensClass(b, i, |b|) {
        ClassStep(b, i, x, k, fold, f.isClass);
        ItemsApart(b, ClassEnd(b, ClassStart(i, |b|), |b|, b[i + 1]) + 1, x, k, fold, f);
      } else {
        OneStep(b, i, x, k, fold, f.isClass);
        NothingSpans(x, k, fold);
      }
    }
  }

  lemma NothingListed(b: Text, i: nat, x: Ch, k: Ch, fold: Ch, f: Flags)
    requires Closes(b, i) && b[i] == ']'
    ensures !Lists(Items(b, i, x), k, fold, f.isClass) && !Spans(x, Ends(b, i), k, fold)
  {
  }

  lemma NothingSpans(x: Ch, k: Ch, fold: Ch)
    ensures !Spans(x, [], k, fold)
  {
  }

  /** What is before the list makes no difference to c: it is listed otherwise, or lies in a
      startless range whether that starts at '[' or at the sign, or in none. */
  ghost predicate StartDoesNotMatter(body: Text, sign: Ch, c: Ch, f: Flags) {
    var a := Listed(body);
    || (body != [] && (body[0] == ']' || body[0] == '-')) || !Closes(a, 1)
    || CoversOtherwise(a, 1, c, Fold(c, f), f)
    || (Spans('[', Ends(a, 1), c, Fold(c, f)) <==> Spans(sign, Ends(a, 1), c, Fold(c, f)))
  }

  /** For every list: the negation accepts a character exactly when the list does not, exactly
      when what is before the list makes no difference to it. */
  lemma NegationExactly(body: Text, sign: Ch, c: Ch, f: Flags)
    requires (sign == '!' || sign == '^') && body != [] && body[0] != '!' && body[0] != '^' && IsBracket(Listed(body))
    ensures IsBracket(Unlisted(body, sign))
    ensures (Accepts(Unlisted(body, sign), [c], f) <==> !Accepts(Listed(body), [c], f)) <==> StartDoesNotMatter(body, sign, c, f)
  {
    var a := Listed(body);
    assert a[1] == body[0];
    ListBegins(body);
    if body[0] == ']' || body[0] == '-' {
      Negation(body, sign, c, f);
    } else {
      FromBefore(body, sign, c, f);
      ItemsApart(a, 1, '[', c, Fold(c, f), f);
      ItemsApart(a, 1, sign, c, Fold(c, f), f);
    }
  }

  /** Both lists are the same but for where a startless range begins. */
  lemma FromBefore(body: Text, sign: Ch, c: Ch, f: Flags)
    requires (sign == '!' || sign == '^') && body != [] && body[0] != '!' && body[0] != '^' && IsBracket(Listed(body))
    requires body[0] != ']' && body[0] != '-'
    ensures IsBracket(Unlisted(body, sign)) && Closes(Listed(body), 1)
    ensures Accepts(Listed(body), [c], f) <==> Lists(Items(Listed(body), 1, '['), c, Fold(c, f), f.isClass)
    ensures Accepts(Unlisted(body, sign), [c], f) <==> !Lists(Items(Listed(body), 1, sign), c, Fold(c, f), f.isClass)
  {
    hide Items, Same, ClassEnd, BracketEnd, Accepts;
    var a, b := Listed(body), Unlisted(body, sign);
    NegationCloses(body, sign);
    OneFurther(body, sign);
    ListCloses(a);
    BracketMatches(a, c, f);
    BracketMatches(b, c, f);
    ItemsSame(a, b, 1, 1, 1, sign);
  }

  /** After classes a range takes its start from before the list: "[[:x:]-z]" has a range from
      '[' and "[![:x:]-z]" one from '!', so that with no class x neither matches a '0'. */
  lemma StartlessDiffers(f: Flags)
    requires !f.casefold && !f.isClass("x", '0')
    ensures IsBracket(Listed("[:x:]-z")) && !Startful("[:x:]-z")
    ensures !Accepts(Listed("[:x:]-z"), ['0'], f) && !Accepts(Unlisted("[:x:]-z", '!'), ['0'], f)
  {
    StartlessListed(f);
    StartlessUnlisted(f);
  }

  lemma StartlessListed(f: Flags)
    requires !f.casefold && !f.isClass("x", '0')
    ensures IsBracket(Listed("[:x:]-z")) && !Startful("[:x:]-z") && !Accepts(Listed("[:x:]-z"), ['0'], f)
  {
    hide Items, BracketEnd, ClassEnd, Accepts, Lists, StartlessRange;
    var body: Text := "[:x:]-z";
    var a := Listed(body);
    assert a[1..] == "[:x:]-z]";
    ClassThenDash(a, 1, '[', f);
    assert body[0] == '[' && a[1] == '[' && BracketStart(a, 0, |a|) == 1 && Closes(a, 1);
    BracketMatches(a, '0', f);
  }

  lemma StartlessUnlisted(f: Flags)
    requires !f.casefold && !f.isClass("x", '0')
    ensures !Accepts(Unlisted("[:x:]-z", '!'), ['0'], f)
  {
    hide Items, BracketEnd, ClassEnd, Accepts, Lists, StartlessRange;
    var b := Unlisted("[:x:]-z", '!');
    assert b[2..] == "[:x:]-z]";
    ClassThenDash(b, 2, '!', f);
    assert b[1] == '!' && b[2] == '[' && BracketStart(b, 0, |b|) == 2;
    BracketMatches(b, '0', f);
  }

  lemma ListsThree(x: Item, y: Item, z: Item, c: Ch, f: Flags)
    ensures Lists([x, y, z], c, c, f.isClass) <==> Covers(x, c, c, f.isClass) || Covers(y, c, c, f.isClass) || Covers(z, c, c, f.isClass)
  {
    hide Covers;
    assert [x, y, z][1..] == [y, z] && [y, z][1..] == [z] && [z][1..] == [];
    assert Lists([z], c, c, f.isClass) <==> Covers(z, c, c, f.isClass);
    assert Lists([y, z], c, c, f.isClass) <==> Covers(y, c, c, f.isClass) || Lists([z], c, c, f.isClass);
  }

  lemma ClassThenDash(b: Text, i: nat, wc: Ch, f: Flags)
    requires 0 < i && |b| == i + 8 && b[i..] == "[:x:]-z]" && !f.isClass("x", '0')
    ensures Closes(b, i) && BracketEnd(b, i, |b|) == |b| - 1 && StartlessRange(b, i)
    ensures Lists(Items(b, i, wc), '0', '0', f.isClass) <==> wc <= '0'
  {
    var t := b[i..];
    assert t[0] == b[i] && t[1] == b[i + 1] && t[2] == b[i + 2] && t[3] == b[i + 3] && t[4] == b[i + 4] && t[5] == b[i + 5] && t[6] == b[i + 6] && t[7] == b[i + 7];
    assert BracketEnd(b, i + 7, |b|) == i + 7;
    assert BracketEnd(b, i + 6, |b|) == i + 7;
    assert BracketEnd(b, i + 5, |b|) == i + 7;
    assert ClassEnd(b, i + 4, |b|, ':') == i + 4;
    assert ClassEnd(b, i + 3, |b|, ':') == i + 4;
    assert BracketEnd(b, i, |b|) == i + 7;
    assert b[i + 2..i + 3] == "x";
    assert Items(b, i + 7, 'z') == [];
    assert Items(b, i + 6, wc) == [One('z')] + [];
    assert Items(b, i + 5, wc) == [Range(wc, 'z')] + Items(b, i + 6, wc);
    assert Items(b, i, wc) == [Class("x")] + Items(b, i + 5, wc);
    hide Items, BracketEnd, ClassEnd;
    ListsThree(Class("x"), Range(wc, 'z'), One('z'), '0', f);
    assert Items(b, i, wc) == [Class("x"), Range(wc, 'z'), One('z')];
  }

  // ---- what a list matches ------------------------------------------------------------------------------

  /** b[i..] is scanned element by element. */
  ghost predicate Simple(b: Text, i: nat) {
    && 0 < i < |b| && b[|b| - 1] == ']'
    && forall j :: i <= j < |b| - 1 ==> b[j] != ']' && !OpensClass(b, j, |b|)
  }

  lemma SimpleCloses(b: Text, i: nat)
    requires Simple(b, i)
    ensures Closes(b, i)
  {
    ScansTo(b, i);
  }

  lemma SimpleNext(b: Text, i: nat)
    requires Simple(b, i)
    ensures b[|b| - 1] == ']'
    ensures i < |b| - 1 ==> Simple(b, i + 1) && b[i] != ']' && !OpensClass(b, i, |b|)
  {
  }

  lemma SimpleLater(b: Text, i: nat, n: nat)
    requires Simple(b, i) && i <= n < |b|
    ensures Simple(b, n)
  {
  }

  /** c is one of the characters b[i..] before the closing ']', or its other case is. */
  ghost predicate Among(b: Text, i: nat, c: Ch, fold: Ch) { exists j :: i <= j < |b| - 1 && (b[j] == c || b[j] == fold) }

  lemma {:induction false} MembersFrom(b: Text, i: nat, wc: Ch, c: Ch, fold: Ch, f: Flags)
    requires Simple(b, i) && forall j :: i <= j < |b| - 2 ==> b[j] != '-'
    ensures Closes(b, i) && (Lists(Items(b, i, wc), c, fold, f.isClass) <==> Among(b, i, c, fold))
    decreases |b| - i
  {
    SimpleCloses(b, i);
    hide Items, BracketEnd;
    if b[i] == ']' {
      ListEnds(b, i, wc, c, fold, f.isClass);
    } else {
      OneStep(b, i, wc, c, fold, f.isClass);
      hide Lists, Closes;
      MembersFrom(b, i + 1, b[i], c, fold, f);
    }
  }

  /** A list without classes and ranges, where '-' may be first or last, matches exactly its
      members. */
  lemma Members(body: Text, c: Ch, f: Flags)
    requires Plain(body) && forall i :: 0 < i < |body| - 1 ==> body[i] != '-'
    ensures IsBracket(Listed(body))
    ensures Accepts(Listed(body), [c], f) <==> exists j :: 0 <= j < |body| && Alike(c, body[j], f)
  {
    var b, fold := Listed(body), Fold(c, f);
    PlainIsBracket(body);
    PlainSimple(body);
    BracketMatches(b, c, f);
    assert forall j :: 0 <= j < |body| ==> b[j + 1] == body[j];
    forall l: Ch ensures l == c || l == fold <==> Alike(c, l, f) { FoldIsOther(c, l, f); }
    hide Items, BracketEnd, Closes, Lists;
    FirstItem(b, c, fold, f.isClass);
    if b[1] == ']' || b[1] == '-' {
      MembersFrom(b, 2, b[1], c, fold, f);
      assert !(c != b[1] && fold == b[1]);
      FirstAmong(b, c, fold);
    } else {
      MembersFrom(b, 1, b[0], c, fold, f);
    }
    assert Among(b, 1, c, fold) <==> exists j :: 0 <= j < |body| && Alike(c, body[j], f) by {
      forall j | 1 <= j < |b| - 1 ensures b[j] == body[j - 1] {}
      forall j | 0 <= j < |body| ensures body[j] == b[j + 1] {}
    }
  }

  lemma FirstAmong(b: Text, c: Ch, fold: Ch)
    requires |b| > 2
    ensures Among(b, 1, c, fold) <==> b[1] == c || b[1] == fold || Among(b, 2, c, fold)
  {
  }

  lemma PlainSimple(body: Text)
    requires Plain(body)
    ensures var b := Listed(body); Simple(b, 2) && (body[0] != ']' ==> Simple(b, 1))
  {
    var b := Listed(body);
    forall j | 1 <= j < |b| - 1 ensures !OpensClass(b, j, |b|) && (j > 1 ==> b[j] != ']') {
      assert b[j] == body[j - 1];
      if j < |b| - 2 { assert b[j + 1] == body[j]; }
    }
  }

  lemma FoldInRange(lo: Ch, hi: Ch, c: Ch, f: Flags)
    ensures lo <= c <= hi || lo <= Fold(c, f) <= hi <==> lo <= c <= hi || (f.casefold && exists d: Ch :: OtherCase(c, d) && lo <= d <= hi)
    ensures Fold(c, f) == '-' ==> c == '-'
    ensures Fold(c, f) == ']' ==> c == ']'
  {
    if f.casefold && Casefold(c) != c { assert OtherCase(c, Casefold(c)); }
  }

  /** "[lo-hi]" matches the characters from lo to hi, and in any case lo and hi. */
  lemma RangeOf(lo: Ch, hi: Ch, c: Ch, f: Flags)
    requires lo != '!' && lo != '^' && hi != ']'
    ensures IsBracket(Listed([lo, '-', hi]))
    ensures Accepts(Listed([lo, '-', hi]), [c], f) <==>
      Alike(c, lo, f) || Alike(c, hi, f) || lo <= c <= hi || (f.casefold && exists d: Ch :: OtherCase(c, d) && lo <= d <= hi)
  {
    hide Items, BracketEnd, Lists;
    var body := [lo, '-', hi];
    var b, fold := Listed(body), Fold(c, f);
    assert b == ['[', lo, '-', hi, ']'];
    PlainIsBracket(body);
    PlainSimple(body);
    BracketMatches(b, c, f);
    hide Accepts, Plain;
    forall l: Ch ensures l == c || l == fold <==> Alike(c, l, f) { FoldIsOther(c, l, f); }
    SimpleCloses(b, 2);
    FoldInRange(lo, hi, c, f);
    hide Items, BracketEnd, Lists;
    FirstItem(b, c, fold, f.isClass);
    RangeStep(b, 2, lo, c, fold, f.isClass);
    OneStep(b, 3, lo, c, fold, f.isClass);
    ListEnds(b, 4, hi, c, fold, f.isClass);
    if lo != ']' && lo != '-' {
      OneStep(b, 1, '[', c, fold, f.isClass);
    }
  }

  /** A list of a range that is not empty. */
  lemma InRange(lo: Ch, hi: Ch, c: Ch, f: Flags)
    requires lo != '!' && lo != '^' && hi != ']' && lo <= hi && !f.casefold
    ensures Accepts(Listed([lo, '-', hi]), [c], f) <==> lo <= c <= hi
  {
    RangeOf(lo, hi, c, f);
  }

  // ---- lists one after the other ------------------------------------------------------------------------

  /** Where the second list begins, what has been listed before does not matter. */
  lemma {:induction false} ListsUnion(b: Text, n: nat, a: Text, i: nat, wc: Ch, c: Ch, fold: Ch, f: Flags)
    requires Simple(b, i) && Simple(a, i) && i <= n == |a| - 1 < |b| - 1
    requires (forall j :: 0 <= j < n ==> a[j] == b[j]) && a[n - 1] != '-' && b[n] != '-' && b[n] != ']'
    requires i < n || wc != '-'
    ensures Closes(b, i) && Closes(a, i) && Closes(b, n)
    ensures Lists(Items(b, i, wc), c, fold, f.isClass) <==>
      Lists(Items(a, i, wc), c, fold, f.isClass) || Lists(Items(b, n, '['), c, fold, f.isClass)
    decreases n - i
  {
    hide Simple, BracketEnd, Lists;
    SimpleCloses(b, i);
    SimpleCloses(a, i);
    SimpleNext(a, i);
    SimpleNext(b, i);
    SimpleLater(b, i, n);
    SimpleCloses(b, n);
    if i == n {
      ListEnds(a, i, wc, c, fold, f.isClass);
      BeforeOnly(b, n, wc, '[');
    } else {
      hide Items;
      if a[i] == '-' {
        RangeStep(a, i, wc, c, fold, f.isClass);
        RangeStep(b, i, wc, c, fold, f.isClass);
        hide Closes;
        ListsUnion(b, n, a, i + 1, wc, c, fold, f);
      } else {
        OneStep(a, i, wc, c, fold, f.isClass);
        OneStep(b, i, wc, c, fold, f.isClass);
        hide Closes;
        ListsUnion(b, n, a, i + 1, a[i], c, fold, f);
      }
    }
  }

  lemma BeforeOnly(b: Text, i: nat, x: Ch, y: Ch)
    requires Closes(b, i) && Simple(b, i) && b[i] != '-' && b[i] != ']'
    ensures Items(b, i, x) == Items(b, i, y)
  {
  }

  /** Two lists can stand one after the other where no range or class arises between them. */
  ghost predicate Separate(a: Text, b: Text) {
    && Plain(a) && Plain(b) && a[|a| - 1] != '-' && b[0] != '-' && b[0] != ']'
    && !(a[|a| - 1] == '[' && (b[0] == ':' || b[0] == '.' || b[0] == '='))
  }

  /** Two lists together match what one of them matches: ranges and members combine. */
  lemma Union(a: Text, b: Text, c: Ch, f: Flags)
    requires Separate(a, b)
    ensures Plain(a + b)
    ensures Accepts(Listed(a + b), [c], f) <==> Accepts(Listed(a), [c], f) || Accepts(Listed(b), [c], f)
  {
    SeparatePlain(a, b);
    PlainIsBracket(a);
    PlainIsBracket(b);
    PlainIsBracket(a + b);
    PlainSimple(a);
    PlainSimple(b);
    PlainSimple(a + b);
    BracketMatches(Listed(a), c, f);
    BracketMatches(Listed(b), c, f);
    BracketMatches(Listed(a + b), c, f);
    UnionItems(a, b, c, Fold(c, f), f);
  }

  lemma SeparatePlain(a: Text, b: Text)
    requires Separate(a, b)
    ensures Plain(a + b)
  {
    var w := a + b;
    forall i | 0 < i < |w| ensures w[i] != ']' {
      assert w[i] == if i < |a| then a[i] else b[i - |a|];
    }
    forall i | 0 <= i < |w| - 1 ensures !(w[i] == '[' && (w[i + 1] == ':' || w[i + 1] == '.' || w[i + 1] == '=')) {
      assert w[i] == if i < |a| then a[i] else b[i - |a|];
      assert w[i + 1] == if i + 1 < |a| then a[i + 1] else b[i + 1 - |a|];
    }
  }

  lemma UnionItems(a: Text, b: Text, c: Ch, fold: Ch, f: Flags)
    requires Separate(a, b) && Plain(a + b)
    requires IsBracket(Listed(a)) && IsBracket(Listed(b)) && IsBracket(Listed(a + b))
    requires !Negated(Listed(a)) && !Negated(Listed(b)) && !Negated(Listed(a + b))
    requires Simple(Listed(a), 2) && Simple(Listed(b), 1) && Simple(Listed(a + b), 2)
    requires a[0] != ']' ==> Simple(Listed(a), 1) && Simple(Listed(a + b), 1)
    ensures Lists(AllItems(Listed(a + b)), c, fold, f.isClass) <==>
      Lists(AllItems(Listed(a)), c, fold, f.isClass) || Lists(AllItems(Listed(b)), c, fold, f.isClass)
  {
    assert a != [] && b != [];
    hide Items, BracketEnd, Lists, Closes, IsBracket, Negated, Plain;
    var w, x, y := Listed(a + b), Listed(a), Listed(b);
    var n := |x| - 1;
    assert forall j :: 0 <= j < n ==> x[j] == w[j];
    assert forall j :: 1 <= j < |y| ==> y[j] == w[j + n - 1];
    assert w[1] == x[1] == a[0] && x[n - 1] == a[|a| - 1] && w[n] == b[0] == y[1];
    FirstItem(w, c, fold, f.isClass);
    FirstItem(x, c, fold, f.isClass);
    FirstItem(y, c, fold, f.isClass);
    assert Same(y, w, n - 1, 1, |y|);
    SimpleCloses(y, 1);
    ItemsSame(y, w, n - 1, 1, 1, '[');
    if a[0] == ']' || a[0] == '-' {
      ListsUnion(w, n, x, 2, a[0], c, fold, f);
    } else {
      ListsUnion(w, n, x, 1, '[', c, fold, f);
    }
  }

  function ClassText(name: Text): Text { ['[', ':'] + name + [':', ']'] }

  /** "[:name:]" at the front of a list adds the class to what the rest of it matches. */
  lemma ClassThen(name: Text, rest: Text, c: Ch, f: Flags)
    requires |name| < 16 && ':' !in name && (rest == [] || (Plain(rest) && rest[0] != '-' && rest[0] != ']'))
    ensures IsBracket(Listed(ClassText(name) + rest))
    ensures Accepts(Listed(ClassText(name) + rest), [c], f) <==>
      f.isClass(name, c) || f.isClass(name, Fold(c, f)) || (rest != [] && Accepts(Listed(rest), [c], f))
  {
    var b := Listed(ClassText(name) + rest);
    var fold, n := Fold(c, f), |name| + 5;
    ClassScans(name, rest);
    BracketMatches(b, c, f);
    assert b[3..n - 2] == name;
    hide Items, BracketEnd, Lists;
    FirstItem(b, c, fold, f.isClass);
    ClassStep(b, 1, '[', c, fold, f.isClass);
    if rest == [] {
      ListEnds(b, n, '[', c, fold, f.isClass);
    } else {
      RestOfList(b, n, rest, c, fold, f);
    }
  }

  lemma RestOfList(b: Text, n: nat, rest: Text, c: Ch, fold: Ch, f: Flags)
    requires 0 < n < |b| && Closes(b, n) && b[n..] == rest + [']'] && Plain(rest) && rest[0] != '-' && rest[0] != ']'
    requires fold == Fold(c, f)
    ensures Lists(Items(b, n, '['), c, fold, f.isClass) <==> Accepts(Listed(rest), [c], f)
  {
    var y := Listed(rest);
    PlainIsBracket(rest);
    PlainSimple(rest);
    BracketMatches(y, c, f);
    hide Items, BracketEnd, Lists, Plain;
    FirstItem(y, c, fold, f.isClass);
    SimpleCloses(y, 1);
    assert y[1..] == b[n..];
    forall i | 1 <= i < |y| ensures y[i] == b[i + n - 1] { assert y[1..][i - 1] == b[n..][i - 1]; }
    assert |b| == |y| + n - 1;
    ItemsSame(y, b, n - 1, 1, 1, '[');
  }

  lemma ClassScans(name: Text, rest: Text)
    requires ':' !in name && (rest == [] || (Plain(rest) && rest[0] != '-' && rest[0] != ']'))
    ensures var b, n := Listed(ClassText(name) + rest), |name| + 5;
      && IsBracket(b) && !Negated(b) && |b| == n + |rest| + 1 && b[1] == '[' && b[2] == ':' && b[|b| - 1] == ']'
      && OpensClass(b, 1, |b|) && ClassStart(1, |b|) == 4 && ClassEnd(b, 4, |b|, ':') == n - 1
      && b[n..] == rest + [']'] && Closes(b, n)
  {
    var b, n := Listed(ClassText(name) + rest), |name| + 5;
    var e := n - 1;
    assert |ClassText(name)| == |name| + 4 && |b| == n + |rest| + 1;
    hide BracketEnd, ClassEnd, Plain;
    ClassTextIs(name);
    assert b[1] == ClassText(name)[0] && b[2] == ClassText(name)[1];
    assert b[e - 1] == ClassText(name)[|name| + 2] == ':';
    assert b[e] == ClassText(name)[|name| + 3] == ']';
    forall i | 3 <= i < e - 1 ensures b[i] != ':' { assert b[i] == ClassText(name)[i - 1] == name[i - 3]; }
    ClassScan(b, 4, e);
    assert b[n..] == rest + [']'];
    RestScans(b, n, rest);
    hide ClassText;
    ClosesWithClass(b, n);
  }

  lemma ClassTextIs(name: Text)
    ensures var t := ClassText(name);
      && |t| == |name| + 4 && t[0] == '[' && t[1] == ':' && t[|name| + 2] == ':' && t[|name| + 3] == ']'
      && forall i :: 0 <= i < |name| ==> t[i + 2] == name[i]
  {
  }

  lemma ClosesWithClass(b: Text, n: nat)
    requires 5 <= n < |b| && b[0] == '[' && b[1] == '[' && b[2] == ':' && ClassEnd(b, 4, |b|, ':') == n - 1
    requires BracketEnd(b, n, |b|) == |b| - 1
    ensures IsBracket(b) && !Negated(b) && OpensClass(b, 1, |b|) && ClassStart(1, |b|) == 4
  {
    assert BracketEnd(b, 1, |b|) == BracketEnd(b, n, |b|);
  }

  lemma RestScans(b: Text, n: nat, rest: Text)
    requires 0 < n < |b| && b[n..] == rest + [']'] && (rest == [] || (Plain(rest) && rest[0] != ']'))
    ensures BracketEnd(b, n, |b|) == |b| - 1 && b[|b| - 1] == ']' && Closes(b, n)
  {
    forall i | n <= i < |b| ensures b[i] == (rest + [']'])[i - n] { assert b[i] == b[n..][i - n]; }
    ScansTo(b, n);
  }

  lemma {:induction false} ClassScan(b: Text, k: nat, e: nat)
    requires 3 < k <= e < |b| && b[e - 1] == ':' && b[e] == ']' && forall i :: 3 <= i < e - 1 ==> b[i] != ':'
    ensures ClassEnd(b, k, |b|, ':') == e
    decreases e - k
  {
    if k < e { ClassScan(b, k + 1, e); }
  }
}
