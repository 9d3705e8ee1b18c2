/** When one gap between two texts may stand for another. Three things go wrong: a comment put right after a dash takes
    the dash, a comment that is not complete runs on into what follows, and a line comment before the gap runs on where
    the gap no longer brings its line feed. The results are compared exactly, over all texts. */
module GapReplacement {
  import opened Domain
  import opened Normalizer
  import opened NormalForm

  // ----- Results and tokens -----

  /** Two texts have the same result exactly when their tidied tokens agree. */
  lemma SameResultExactly(s: string, z: string)
    requires Lex(s).Some? && Lex(z).Some?
    ensures Normalize(s) == Normalize(z) <==> Tidy(Lex(s).value) == Tidy(Lex(z).value)
  {
    NormalizeIsTidy(s);
    NormalizeIsTidy(z);
    hide Normalize, Tidy, Stable, IsSqueezed, IsStripped;
  }

  /** The tokens that are not gaps, in order. */
  function Content(ts: seq<Token>): seq<Token> {
    if ts == [] then [] else
    Content(ts[..|ts| - 1]) + (if ts[|ts| - 1] == Gap then [] else [ts[|ts| - 1]])
  }

  lemma {:induction false} ContentConcat(a: seq<Token>, b: seq<Token>)
    ensures Content(a + b) == Content(a) + Content(b)
    decreases |b|
  {
    if b == [] {
      assert a + b == a;
    } else {
      ContentConcat(a, b[..|b| - 1]);
      assert (a + b)[..|a + b| - 1] == a + b[..|b| - 1];
    }
  }

  lemma {:induction false} NoContentIsGaps(ts: seq<Token>)
    ensures Content(ts) == [] <==> forall t :: t in ts ==> t == Gap
    decreases |ts|
  {
    if ts != [] {
      var front := ts[..|ts| - 1];
      NoContentIsGaps(front);
      assert ts == front + [ts[|ts| - 1]];
      assert ts[|ts| - 1] in ts;
      assert forall t :: t in front ==> t in ts;
    }
  }

  function Lowered(ts: seq<Token>): seq<Token> {
    if ts == [] then [] else Lowered(ts[..|ts| - 1]) + [LowerToken(ts[|ts| - 1])]
  }

  lemma {:induction false} LoweredAt(ts: seq<Token>)
    ensures |Lowered(ts)| == |ts|
    ensures ts != [] ==> Lowered(ts)[|ts| - 1] == LowerToken(ts[|ts| - 1])
    decreases |ts|
  {
    if ts != [] { LoweredAt(ts[..|ts| - 1]); }
  }

  lemma ContentLast(ts: seq<Token>, t: Token)
    ensures Content(ts + [t]) == Content(ts) + (if t == Gap then [] else [t])
  {
    assert (ts + [t])[..|ts|] == ts;
  }

  lemma LoweredLast(ts: seq<Token>, t: Token)
    ensures Lowered(ts + [t]) == Lowered(ts) + [LowerToken(t)]
  {
    assert (ts + [t])[..|ts|] == ts;
  }

  lemma {:induction false} SqueezedContent(ts: seq<Token>)
    ensures Content(Squeeze(ts)) == Lowered(Content(ts))
    decreases |ts|
  {
    if ts != [] {
      var front, t := ts[..|ts| - 1], ts[|ts| - 1];
      SqueezedContent(front);
      ContentLast(Squeeze(front), LowerToken(t));
      LoweredLast(Content(front), t);
      assert Content(front) + [] == Content(front);
    }
  }

  lemma {:induction false} StrippedLeftContent(ts: seq<Token>)
    ensures Content(StripLeft(ts)) == Content(ts)
  {
    if ts != [] && ts[0] == Gap {
      StrippedLeftContent(ts[1..]);
      ContentConcat([Gap], ts[1..]);
      assert ts == [Gap] + ts[1..];
      assert [Gap][..0] == [];
    }
  }

  lemma {:induction false} StrippedRightContent(ts: seq<Token>)
    ensures Content(StripRight(ts)) == Content(ts) && !AtGap(StripRight(ts))
    decreases |ts|
  {
    if AtGap(ts) { StrippedRightContent(ts[..|ts| - 1]); }
  }

  lemma StrippedContent(ts: seq<Token>)
    ensures Content(Strip(ts)) == Content(ts) && !AtGap(Strip(ts))
  {
    StrippedLeftContent(ts);
    StrippedRightContent(StripLeft(ts));
  }

  /** The tidied tokens have the content of the text in lower case, without one last semicolon. */
  lemma TidyContent(ts: seq<Token>)
    ensures Content(Tidy(ts)) == DropLast(Lowered(Content(ts)))
  {
    var z := Strip(Squeeze(ts));
    SqueezedContent(ts);
    StrippedContent(Squeeze(ts));
    StrippedContent(DropLast(z));
    assert Content(DropLast(z)) == DropLast(Content(z));
  }

  lemma {:induction false} LoweredEach(ts: seq<Token>, k: nat)
    requires k < |ts|
    ensures |Lowered(ts)| == |ts| && Lowered(ts)[k] == LowerToken(ts[k])
    decreases |ts|
  {
    LoweredAt(ts);
    LoweredAt(ts[..|ts| - 1]);
    if k < |ts| - 1 { LoweredEach(ts[..|ts| - 1], k); }
  }

  /** The token in small letters, written out. */
  predicate SmallOf(t: Token, u: Token) {
    match t
    case Plain(c) => u.Plain? && u.c as int == if 'A' <= c <= 'Z' then c as int + 32 else c as int
    case _ => u == t
  }

  lemma LowerTokenIsSmall(t: Token)
    ensures SmallOf(t, LowerToken(t))
  {
  }

  /** Outside gaps the output is the input, token for token, but for capitals written small and one last semicolon. */
  lemma ContentSurvives(s: string)
    requires Normalize(s).Some?
    ensures Lex(s).Some? && Lex(Normalize(s).value).Some?
    ensures var before, after := Content(Lex(s).value), Content(Lex(Normalize(s).value).value);
            && |after| == (if EndsWithSemicolon(before) then |before| - 1 else |before|)
            && forall k :: 0 <= k < |after| ==> SmallOf(before[k], after[k])
  {
    NormalizeIsTidy(s);
    TidyContent(Lex(s).value);
    hide Content, Tidy, Normalize, Lex, Stable, IsSqueezed, IsStripped;
    SmallContent(Content(Lex(s).value));
    hide DropLast, Lowered, SmallOf;
  }

  lemma SmallContent(before: seq<Token>)
    ensures var after := DropLast(Lowered(before));
            && |after| == (if EndsWithSemicolon(before) then |before| - 1 else |before|)
            && forall k :: 0 <= k < |after| ==> SmallOf(before[k], after[k])
  {
    LoweredAt(before);
    forall k | 0 <= k < |before| ensures SmallOf(before[k], Lowered(before)[k]) {
      LoweredEach(before, k);
      LowerTokenIsSmall(before[k]);
    }
    hide Lowered, SmallOf;
  }

  predicate EndsWithSemicolon(ts: seq<Token>) {
    ts != [] && ts[|ts| - 1] == Plain(';')
  }

  lemma TidyLength(ts: seq<Token>)
    ensures |Content(Tidy(ts))| == |Content(ts)| - if EndsWithSemicolon(Content(ts)) then 1 else 0
  {
    TidyContent(ts);
    LoweredAt(Content(ts));
  }

  // ----- Text read in one of two readings only -----

  /** The tokens `m`, before `y` and after `x` and a gap, leave the result as it is: they are gaps, or a semicolon at
      the very end that is dropped, where no other is. */
  predicate Negligible(x: seq<Token>, m: seq<Token>, y: seq<Token>) {
    || Content(m) == []
    || (Content(m) == [Plain(';')] && Content(y) == [] && !EndsWithSemicolon(Content(x)))
  }

  lemma ExtraIsExact(x: seq<Token>, m: seq<Token>, y: seq<Token>)
    ensures Tidy(x + [Gap] + (m + y)) == Tidy(x + [Gap] + y) <==> Negligible(x, m, y)
  {
    if Tidy(x + [Gap] + (m + y)) == Tidy(x + [Gap] + y) { ExtraIsNegligible(x, m, y); }
    if Content(m) == [] {
      ExtraGaps(x, m, y);
    } else if Negligible(x, m, y) {
      ExtraSemicolon(x, m, y);
    }
  }

  lemma ContentAround(x: seq<Token>, m: seq<Token>, y: seq<Token>)
    ensures Content(x + [Gap] + (m + y)) == Content(x) + (Content(m) + Content(y))
    ensures Content(x + [Gap] + y) == Content(x) + Content(y)
  {
    assert [Gap][..0] == [] && Content([Gap]) == [];
    ContentConcat(x + [Gap], m + y);
    ContentConcat(x + [Gap], y);
    ContentConcat(x, [Gap]);
    ContentConcat(m, y);
    hide Content;
    assert Content(x) + [] == Content(x);
  }

  lemma ExtraIsNegligible(x: seq<Token>, m: seq<Token>, y: seq<Token>)
    requires Tidy(x + [Gap] + (m + y)) == Tidy(x + [Gap] + y)
    ensures Negligible(x, m, y)
  {
    ContentAround(x, m, y);
    TidyLength(x + [Gap] + (m + y));
    TidyLength(x + [Gap] + y);
    hide Tidy, Content;
    var cx, cm, cy := Content(x), Content(m), Content(y);
    if cy != [] {
      assert (cx + (cm + cy))[|cx + (cm + cy)| - 1] == cy[|cy| - 1];
    } else if cm != [] {
      assert cx + (cm + cy) == cx + cm && cx + cy == cx;
      assert |cm| == 1 && cm == [cm[0]];
    }
  }

  lemma ExtraGaps(x: seq<Token>, m: seq<Token>, y: seq<Token>)
    requires Content(m) == []
    ensures Tidy(x + [Gap] + (m + y)) == Tidy(x + [Gap] + y)
  {
    NoContentIsGaps(m);
    Reassociate(x + [Gap], m, y);
    Reassociate(x, [Gap], m);
    SqueezeGaps(x, [Gap] + m);
    SqueezeConcat(x + [Gap] + m, x + [Gap], y);
  }

  /** After a gap, a semicolon among gaps comes out as a semicolon and at most one gap. */
  lemma {:induction false} SqueezeSemicolon(u: seq<Token>, m: seq<Token>) returns (w: seq<Token>)
    requires AtGap(u) && Content(m) == [Plain(';')]
    ensures Squeeze(u + m) == Squeeze(u) + [Plain(';')] + w && (w == [] || w == [Gap])
    decreases |m|
  {
    var front, t := m[..|m| - 1], m[|m| - 1];
    assert u + m == u + front + [t];
    SqueezeAppend(u + front, t);
    if t == Gap {
      w := SqueezeSemicolon(u, front);
      SqueezeLast(u + front);
      hide Squeeze;
      if w == [] {
        w := [Gap];
      }
    } else {
      w := [];
      assert Content(front) == [];
      NoContentIsGaps(front);
      GapsAfterGap(u, front);
    }
  }

  lemma GapsAfterGap(u: seq<Token>, g: seq<Token>)
    requires AtGap(u) && forall t :: t in g ==> t == Gap
    ensures Squeeze(u + g) == Squeeze(u)
  {
    var front := u[..|u| - 1];
    assert u == front + [Gap];
    Reassociate(front, [Gap], g);
    SqueezeGaps(front, [Gap] + g);
  }

  lemma {:induction false} StripLeftStops(u: seq<Token>, t: Token, w: seq<Token>)
    requires t != Gap
    ensures StripLeft(u + [t] + w) == StripLeft(u) + [t] + w
  {
    if u == [] {
      assert u + [t] + w == [t] + w;
    } else if u[0] == Gap {
      StripLeftStops(u[1..], t, w);
      assert (u + [t] + w)[1..] == u[1..] + [t] + w;
    }
  }

  lemma StripAgain(u: seq<Token>)
    ensures StripLeft(StripLeft(u)) == StripLeft(u) && Strip(Strip(u)) == Strip(u)
  {
    StripLeftStarts(u);
    StripRightIsPrefix(StripLeft(u));
    StrippedRightContent(StripLeft(u));
  }

  lemma ExtraSemicolon(x: seq<Token>, m: seq<Token>, y: seq<Token>)
    requires Content(m) == [Plain(';')] && Content(y) == [] && !EndsWithSemicolon(Content(x))
    ensures Tidy(x + [Gap] + (m + y)) == Tidy(x + [Gap] + y)
  {
    var u := x + [Gap];
    ContentConcat(m, y);
    var w := SqueezeSemicolon(u, m + y);
    NoContentIsGaps(y);
    GapsAfterGap(u, y);
    NoSemicolonYet(x);
    hide Squeeze, Strip, Content;
    var z := Squeeze(u);
    TrailingSemicolon(z, w);
    NothingToDrop(z);
  }

  lemma NoSemicolonYet(x: seq<Token>)
    requires !EndsWithSemicolon(Content(x))
    ensures !EndsWithSemicolon(Content(Squeeze(x + [Gap])))
  {
    assert (x + [Gap])[..|x|] == x;
    SqueezedContent(x + [Gap]);
    LoweredAt(Content(x));
    assert Content(x) + [] == Content(x);
  }

  lemma TrailingSemicolon(z: seq<Token>, w: seq<Token>)
    requires w == [] || w == [Gap]
    ensures Strip(DropLast(Strip(z + [Plain(';')] + w))) == Strip(z)
  {
    var t, v := Plain(';'), StripLeft(z);
    StripLeftStops(z, t, w);
    assert v + [t] + [] == v + [t];
    assert (v + [t] + [Gap])[..|v| + 1] == v + [t];
    assert StripRight(v + [t]) == v + [t];
    assert StripRight(v + [t] + w) == v + [t];
    assert (v + [t])[..|v|] == v;
    StripAgain(z);
  }

  lemma NothingToDrop(z: seq<Token>)
    requires !EndsWithSemicolon(Content(z))
    ensures Strip(DropLast(Strip(z))) == Strip(z)
  {
    StrippedContent(z);
    StripAgain(z);
    hide Strip;
  }

  /** A dash less, whatever else is read or not. */
  lemma LostDash(x: seq<Token>, m: seq<Token>, y: seq<Token>)
    ensures Tidy(x + [Plain('-')] + [Gap] + (m + y)) != Tidy(x + [Gap] + y)
  {
    var d := Plain('-');
    ContentAround(x + [d], m, y);
    ContentAround(x, [], y);
    assert Content(x + [d]) == Content(x) + [d] by { assert (x + [d])[..|x|] == x; }
    TidyLength(x + [d] + [Gap] + (m + y));
    TidyLength(x + [Gap] + y);
    hide Tidy, Content;
    var cx, cm, cy := Content(x), Content(m), Content(y);
    var long := cx + [d] + (cm + cy);
    if cy != [] {
      assert long[|long| - 1] == cy[|cy| - 1];
    } else if cm == [] {
      assert long == cx + [d];
    }
  }

  // ----- Comments that run on -----

  /** A comment that what follows could still fall into. */
  predicate OpenComment(l: string) {
    StartsLine(l) || (StartsBlock(l) && !Closed(l))
  }

  ghost predicate EndsOpen(a: string) {
    a != "" && Lex(a).Some? && OpenComment(LastLexeme(a))
  }

  /** How much of what follows an open comment takes. */
  function Taken(l: string, b: string): (n: nat)
    requires OpenComment(l)
    ensures n <= |b|
  {
    if StartsLine(l) then LineEnd(b, 0)
    else if |l| >= 3 && l[|l| - 1] == '*' && b != "" && b[0] == '/' then 1
    else BlockEnd(b, 0)
  }

  lemma {:induction false} LineEndThrough(l: string, b: string, j: nat)
    requires j <= |l|
    ensures LineEnd(l + b, j) == if LineEnd(l, j) < |l| then LineEnd(l, j) else |l| + LineEnd(b, 0)
    decreases |l| - j
  {
    if j == |l| {
      LineEndShift(l + b, |l|, |l|);
      assert (l + b)[|l|..] == b;
    } else if l[j] != '\n' {
      LineEndThrough(l, b, j + 1);
    }
  }

  lemma {:induction false} BlockEndThrough(l: string, b: string, j: nat)
    requires 0 < j <= |l| && BlockEnd(l, j) == |l| && !(|l| >= j + 2 && l[|l| - 2] == '*' && l[|l| - 1] == '/')
    ensures BlockEnd(l + b, j) ==
            |l| + if j < |l| && l[|l| - 1] == '*' && b != "" && b[0] == '/' then 1 else BlockEnd(b, 0)
    decreases |l| - j
  {
    assert (l + b)[|l|..] == b;
    if j == |l| {
      BlockEndShift(l + b, |l|, |l|);
    } else if j + 1 == |l| {
      if b != "" {
        assert (l + b)[|l|] == b[0];
        BlockEndShift(l + b, |l|, |l|);
      }
    } else {
      assert BlockEnd(l, j) == BlockEnd(l, j + 1);
      BlockEndThrough(l, b, j + 1);
    }
  }

  /** An open comment goes on into what follows. */
  lemma CommentGoesOn(l: string, b: string)
    requires l != "" && OpenComment(l) && First(l).Lexeme? && First(l).len == |l|
    ensures First(l + b) == Lexeme(Gap, |l| + Taken(l, b))
  {
    assert (l + b)[0] == l[0] && (l + b)[1] == l[1];
    if StartsLine(l) {
      LineEndThrough(l, b, 2);
    } else {
      BlockEndThrough(l, b, 2);
    }
  }

  /** What is read when `front` has been and `rest` is to come. */
  function Then(front: seq<Token>, rest: Option<seq<Token>>): Option<seq<Token>> {
    match rest
    case Some(ts) => Some(front + ts)
    case None => None
  }

  lemma ThenThen(a: seq<Token>, b: seq<Token>, rest: Option<seq<Token>>)
    ensures Then(a, Then(b, rest)) == Then(a + b, rest)
  {
    if rest.Some? { Reassociate(a, b, rest.value); }
  }

  lemma ReadOn(s: string, t: Token, len: nat)
    requires s != "" && First(s) == Lexeme(t, len)
    ensures len <= |s| && Lex(s) == Then([t], Lex(s[len..]))
  {
  }

  lemma OneOpenComment(p: string)
    requires EndsOpen(p) && First(p).len == |p|
    ensures LastLexeme(p) == p && First(p) == Lexeme(Gap, |p|) && Lex(p) == Some([Gap])
  {
    assert p[|p|..] == "" && Lex("") == Some([]);
    assert [Gap] + [] == [Gap];
    hide LineEnd, BlockEnd, QuoteEnd;
  }

  lemma LastRunsOn(p: string, b: string)
    requires EndsOpen(p) && First(p).len == |p|
    ensures Lex(p + b) == Then(Lex(p).value, Lex(b[Taken(LastLexeme(p), b)..]))
  {
    OneOpenComment(p);
    CommentGoesOn(p, b);
    hide First, Lex, LastLexeme, OpenComment, Taken;
    var n := Taken(p, b);
    ReadOn(p + b, Gap, |p| + n);
    assert (p + b)[|p| + n..] == b[n..];
  }

  lemma FirstStays(p: string, b: string)
    requires p != "" && Lex(p).Some? && First(p).len < |p|
    ensures var rest := p[First(p).len..];
            && Lex(rest).Some? && LastLexeme(p) == LastLexeme(rest)
            && Lex(p) == Then([First(p).tok], Lex(rest))
            && Lex(p + b) == Then([First(p).tok], Lex(rest + b))
  {
    var t, len := First(p).tok, First(p).len;
    ReadOn(p, t, len);
    if b == "" { assert p + b == p; } else { FirstAppend(p, b); }
    ReadOn(p + b, t, len);
    assert (p + b)[len..] == p[len..] + b;
  }

  /** A text that ends in an open comment, read with what follows. */
  lemma {:induction false} RunsOn(p: string, b: string)
    requires EndsOpen(p)
    ensures Lex(p + b) == Then(Lex(p).value, Lex(b[Taken(LastLexeme(p), b)..]))
    decreases |p|
  {
    if First(p).len == |p| {
      LastRunsOn(p, b);
    } else {
      var rest := p[First(p).len..];
      FirstStays(p, b);
      RunsOn(rest, b);
      hide Lex, First, LastLexeme, EndsOpen, OpenComment, Taken;
      ThenThen([First(p).tok], Lex(rest).value, Lex(b[Taken(LastLexeme(p), b)..]));
    }
  }

  // ----- A gap and what it leaves -----

  /** What is left to read of `b` once the gap before it has taken its share. */
  ghost function AfterGap(h: string, b: string): string {
    if EndsOpen(h) then b[Taken(LastLexeme(h), b)..] else b
  }

  lemma {:induction false} LastOfGaps(h: string)
    requires AllGaps(h)
    ensures var l := LastLexeme(h); IsSpace(l[0]) || StartsLine(l) || StartsBlock(l)
    decreases |h|
  {
    GapStarts(h);
    var len := First(h).len;
    if len < |h| {
      assert forall t :: t in Lex(h[len..]).value ==> t in Lex(h).value;
      LastOfGaps(h[len..]);
    }
  }

  lemma {:induction false} JoinsNothing(a: string)
    requires Lex(a).Some?
    ensures Joins(a, "")
    decreases |a|
  {
    if a != "" {
      assert a + "" == a;
      JoinsNothing(a[First(a).len..]);
    }
  }

  lemma GapReads(h: string, b: string)
    requires AllGaps(h)
    ensures Lex(h + b) == Then(Lex(h).value, Lex(AfterGap(h, b)))
  {
    if EndsOpen(h) {
      RunsOn(h, b);
    } else {
      LastOfGaps(h);
      if b == "" { JoinsNothing(h); } else { JoinsExactly(h, b); }
      JoinedLex(h, b);
    }
  }

  lemma GapReadsAfter(p: string, h: string, b: string)
    requires AllGaps(h) && Joins(p, h)
    ensures Lex(p).Some? && Lex(p + h + b) == Then(Lex(p).value + Lex(h).value, Lex(AfterGap(h, b)))
  {
    GapReads(h, b);
    if p != "" {
      JoinsExactly(p, h);
      JoinsExactly(p, h + b);
    }
    JoinedLex(p, h + b);
    hide Lex, AllGaps, Joins, AfterGap;
    Reassociate(p, h, b);
    ThenThen(Lex(p).value, Lex(h).value, Lex(AfterGap(h, b)));
  }

  // ----- The dash before a comment -----

  // A prefix that still holds the first lexeme begins with the same one.

  lemma {:induction false} QuoteEndOfPrefix(s: string, n: nat, j: nat, q: char)
    requires n <= |s| && QuoteEnd(s, j, q).Some? && QuoteEnd(s, j, q).value <= n
    ensures QuoteEnd(s[..n], j, q) == QuoteEnd(s, j, q)
    decreases |s| - j
  {
    if s[j] != q { QuoteEndOfPrefix(s, n, j + 1, q); }
    else if j + 1 < |s| && s[j + 1] == q { QuoteEndOfPrefix(s, n, j + 2, q); }
  }

  lemma {:induction false} LineEndOfPrefix(s: string, n: nat, j: nat)
    requires j <= n <= |s| && LineEnd(s, j) <= n
    ensures LineEnd(s[..n], j) == LineEnd(s, j)
    decreases |s| - j
  {
    if j < |s| && s[j] != '\n' { LineEndOfPrefix(s, n, j + 1); }
  }

  lemma {:induction false} BlockEndOfPrefix(s: string, n: nat, j: nat)
    requires j <= n <= |s| && BlockEnd(s, j) <= n
    ensures BlockEnd(s[..n], j) == BlockEnd(s, j)
    decreases |s| - j
  {
    if j + 1 < |s| && !(s[j] == '*' && s[j + 1] == '/') { BlockEndOfPrefix(s, n, j + 1); }
  }

  lemma FirstOfPrefix(s: string, n: nat)
    requires s != "" && First(s).Lexeme? && First(s).len <= n <= |s|
    ensures First(s[..n]) == First(s)
  {
    var len := First(s).len;
    assert s[..n][0] == s[0];
    if IsQuote(s[0]) {
      QuoteEndOfPrefix(s, n, 1, s[0]);
      assert s[..n][..len] == s[..len];
    } else if StartsLine(s) {
      assert StartsLine(s[..n]);
      LineEndOfPrefix(s, n, 2);
    } else if StartsBlock(s) {
      assert StartsBlock(s[..n]);
      BlockEndOfPrefix(s, n, 2);
    }
  }

  /** What comes before a last dash may be read with a dash after it. */
  lemma {:induction false} LastDash(a: string)
    requires a != "" && Lex(a).Some? && LastLexeme(a) == "-"
    ensures a == a[..|a| - 1] + "-" && Joins(a[..|a| - 1], "-")
    decreases |a|
  {
    var f := First(a);
    if f.len < |a| {
      var rest := a[f.len..];
      LastDash(rest);
      var front := a[..|a| - 1];
      FirstOfPrefix(a, |a| - 1);
      assert front[f.len..] == rest[..|rest| - 1];
      assert front + "-" == a;
    }
  }

  /** Read with a dash after it, it may be read with any text that begins with a dash after it. */
  lemma JoinsAnyDash(a: string, x: string)
    requires Joins(a, "-") && x != "" && x[0] == '-'
    ensures Joins(a, x)
  {
    if a != "" {
      JoinsExactly(a, "-");
      JoinsExactly(a, x);
    }
  }

  lemma GapStarts(g: string)
    requires AllGaps(g)
    ensures IsSpace(g[0]) || StartsLine(g) || StartsBlock(g)
    ensures First(g).Lexeme? && First(g).tok == Gap && Lex(g[First(g).len..]).Some?
    ensures Lex(g).value == [Gap] + Lex(g[First(g).len..]).value
  {
    LexIsStable(g);
    assert First(g).tok in Lex(g).value;
  }

  lemma LineEndAfterDash(z: string)
    requires StartsLine(z)
    ensures LineEnd("-" + z, 2) == LineEnd(z, 2) + 1 && StartsLine("-" + z)
  {
    var s := "-" + z;
    assert s[1..] == z;
    LineEndShift(s, 1, 2);
    assert LineEnd(z, 1) == LineEnd(z, 2);
  }

  /** A dash put before a line comment becomes part of its lexeme, and all else is as it was. */
  lemma DashBefore(h: string, b: string)
    requires AllGaps(h) && h[0] == '-'
    ensures AllGaps("-" + h) && Lex("-" + h) == Lex(h) && AfterGap("-" + h, b) == AfterGap(h, b)
  {
    var s, len := "-" + h, First(h).len;
    DashFirst(h);
    DashLast(h);
    hide First, LastLexeme;
    ReadOn(s, Gap, len + 1);
    ReadOn(h, Gap, len);
    hide Lex;
  }

  lemma DashFirst(h: string)
    requires AllGaps(h) && h[0] == '-'
    ensures StartsLine(h) && StartsLine("-" + h)
    ensures First(h).Lexeme? && First(h).tok == Gap && Lex(h[First(h).len..]).Some?
    ensures First("-" + h) == Lexeme(Gap, First(h).len + 1) && ("-" + h)[First(h).len + 1..] == h[First(h).len..]
  {
    GapStarts(h);
    LineEndAfterDash(h);
  }

  lemma DashLast(h: string)
    requires AllGaps(h) && h[0] == '-'
    ensures Lex("-" + h).Some?
    ensures var l, d := LastLexeme(h), LastLexeme("-" + h); d == l || (StartsLine(d) && StartsLine(l))
  {
    var s, len := "-" + h, First(h).len;
    DashFirst(h);
    ReadOn(s, Gap, len + 1);
    hide First, Lex;
  }

  // ----- Replacing a gap -----

  /** The new gap begins with a comment that takes the dash before it. */
  predicate LosesDash(a: string, h: string)
    requires Lex(a).Some?
  {
    a != "" && h != "" && LastLexeme(a) == "-" && h[0] == '-'
  }

  function Kept(a: string, h: string): string
    requires Lex(a).Some?
  {
    if LosesDash(a, h) then a[..|a| - 1] else a
  }

  /** How much of the gap falls into a line comment before it. */
  ghost function Sunk(a: string, h: string): (k: nat)
    ensures k <= |h|
  {
    if EndsOpen(a) then LineEnd(h, 0) else 0
  }

  /** What is left to be read after `a` and the gap `h`: `b`, or its end where a comment runs on into it, or more, where
      a line comment before the gap ends inside a block comment of the gap. */
  ghost function Left(a: string, h: string, b: string): string {
    var k := Sunk(a, h);
    if k == |h| then b[LineEnd(b, 0)..]
    else if AllGaps(h[k..]) then AfterGap(h[k..], b)
    else h[k..] + b
  }

  /** The tokens read are those of `front`, up to gaps, then a gap, and then those of `rest`. */
  ghost predicate ReadsAs(s: string, front: seq<Token>, rest: string) {
    && (Lex(s).Some? <==> Lex(rest).Some?)
    && (Lex(s).Some? ==> Squeeze(Lex(s).value) == Squeeze(front + [Gap] + Lex(rest).value))
  }

  lemma ReadsThen(s: string, front: seq<Token>, g: seq<Token>, rest: string)
    requires Lex(s) == Then(front + g, Lex(rest)) && g != [] && forall t :: t in g ==> t == Gap
    ensures ReadsAs(s, front, rest)
  {
    if Lex(rest).Some? {
      SqueezeGaps(front, g);
      SqueezeConcat(front + g, front + [Gap], Lex(rest).value);
    }
  }

  /** The original text. */
  lemma ReadsBefore(a: string, g: string, b: string)
    requires AllGaps(g) && Joins(a, g + b) && Joins(g, b)
    ensures Lex(a).Some? && ReadsAs(a + g + b, Lex(a).value, b)
  {
    GapLex(a, g, b);
    LexIsStable(g);
    ReadsThen(a + g + b, Lex(a).value, Lex(g).value, b);
  }

  /** The text with the gap replaced, whatever runs on into what. */
  lemma ReadsAfter(a: string, h: string, b: string)
    requires AllGaps(h) && Lex(a).Some? && (EndsOpen(a) ==> StartsLine(LastLexeme(a)))
    ensures Lex(Kept(a, h)).Some? && ReadsAs(a + h + b, Lex(Kept(a, h)).value, Left(a, h, b))
  {
    if LosesDash(a, h) {
      ReadsDashless(a, h, b);
    } else if EndsOpen(a) {
      ReadsSunk(a, h, b);
    } else {
      ReadsApart(a, h, b);
    }
  }

  lemma ReadsApart(a: string, h: string, b: string)
    requires AllGaps(h) && Lex(a).Some? && !LosesDash(a, h) && !EndsOpen(a)
    ensures ReadsAs(a + h + b, Lex(a).value, Left(a, h, b))
  {
    GapStarts(h);
    if a != "" { JoinsExactly(a, h); }
    GapReadsAfter(a, h, b);
    assert h[0..] == h;
    ReadsThen(a + h + b, Lex(a).value, Lex(h).value, AfterGap(h, b));
  }

  lemma ReadsDashless(a: string, h: string, b: string)
    requires AllGaps(h) && Lex(a).Some? && LosesDash(a, h)
    ensures Lex(Kept(a, h)).Some? && ReadsAs(a + h + b, Lex(Kept(a, h)).value, Left(a, h, b))
  {
    var front := Kept(a, h);
    LastDash(a);
    GapStarts(h);
    DashBefore(h, b);
    JoinsAnyDash(front, "-" + h);
    GapReadsAfter(front, "-" + h, b);
    DashlessLeft(a, h, b);
    hide Lex, First, LastLexeme, AfterGap, Left, Joins, AllGaps, LosesDash;
    DashMoves(front, h, b);
    ReadsThen(a + h + b, Lex(front).value, Lex(h).value, AfterGap(h, b));
  }

  lemma DashlessLeft(a: string, h: string, b: string)
    requires AllGaps(h) && Lex(a).Some? && LosesDash(a, h)
    ensures Left(a, h, b) == AfterGap(h, b)
  {
    assert h[0..] == h;
    hide Lex, LastLexeme, AllGaps, AfterGap;
  }

  lemma DashMoves(front: string, h: string, b: string)
    ensures front + "-" + h + b == front + ("-" + h) + b
  {
  }

  /** A line comment at the end of `a` takes the gap up to its first line feed. */
  lemma ReadsSunk(a: string, h: string, b: string)
    requires AllGaps(h) && EndsOpen(a) && StartsLine(LastLexeme(a))
    ensures ReadsAs(a + h + b, Lex(a).value, Left(a, h, b))
  {
    var ta, k := Lex(a).value, Sunk(a, h);
    SunkReads(a, h, b);
    EndsInGap(a);
    hide Lex, LastLexeme, LineEnd, EndsOpen, Sunk;
    assert ta + [] == ta;
    if k < |h| && AllGaps(h[k..]) {
      GapReads(h[k..], b);
      ThenThen(ta, Lex(h[k..]).value, Lex(AfterGap(h[k..], b)));
      ReadsAfterComment(a + h + b, ta, Lex(h[k..]).value, Left(a, h, b));
    } else {
      ReadsAfterComment(a + h + b, ta, [], Left(a, h, b));
    }
  }

  lemma SunkReads(a: string, h: string, b: string)
    requires EndsOpen(a) && StartsLine(LastLexeme(a))
    ensures var k := Sunk(a, h);
            Lex(a + h + b) == Then(Lex(a).value, Lex(if k == |h| then b[LineEnd(b, 0)..] else h[k..] + b))
  {
    RunsOn(a, h + b);
    LineEndThrough(h, b, 0);
    hide Lex, LastLexeme, LineEnd, OpenComment, Then;
    Reassociate(a, h, b);
    var n := LineEnd(h + b, 0);
    if Sunk(a, h) == |h| {
      assert (h + b)[n..] == b[LineEnd(b, 0)..];
    } else {
      assert (h + b)[n..] == h[n..] + b;
    }
  }

  lemma ReadsAfterComment(s: string, front: seq<Token>, g: seq<Token>, rest: string)
    requires AtGap(front) && (forall t :: t in g ==> t == Gap)
    requires Lex(s) == Then(front + g, Lex(rest))
    ensures ReadsAs(s, front, rest)
  {
    if Lex(rest).Some? {
      GapsAfterGap(front, g);
      GapsAfterGap(front, [Gap]);
      SqueezeConcat(front + g, front + [Gap], Lex(rest).value);
    }
  }

  lemma {:induction false} EndsInGap(a: string)
    requires EndsOpen(a)
    ensures AtGap(Lex(a).value)
    decreases |a|
  {
    var t, len := First(a).tok, First(a).len;
    ReadOn(a, t, len);
    if len < |a| { EndsInGap(a[len..]); }
  }

  /** The result of replacing one gap by another stays the same exactly when the tokens kept and left agree with those
      that were there, tidied. */
  lemma ReplacementInGeneral(a: string, g: string, h: string, b: string)
    requires AllGaps(g) && AllGaps(h) && Joins(a, g + b) && Joins(g, b)
    ensures Lex(a).Some? && Lex(Kept(a, h)).Some?
    ensures Normalize(a + g + b) == Normalize(a + h + b) <==>
            match (Lex(b), Lex(Left(a, h, b)))
            case (Some(tb), Some(tl)) => Tidy(Lex(a).value + [Gap] + tb) == Tidy(Lex(Kept(a, h)).value + [Gap] + tl)
            case (None, None) => true
            case _ => false
  {
    ReadsBefore(a, g, b);
    if a != "" { JoinsExactly(a, g + b); }
    ReadsAfter(a, h, b);
    if Lex(b).Some? && Lex(Left(a, h, b)).Some? { SameResultExactly(a + g + b, a + h + b); }
    hide Lex, AllGaps, Joins, Kept, Left, Squeeze;
  }

  /** What only one of the two readings reads: what runs on takes from `b`, or the end of a comment cut off in `h`. */
  ghost function Extra(a: string, h: string, b: string): string {
    var left := Left(a, h, b);
    if |left| <= |b| then b[..|b| - |left|] else left[..|left| - |b|]
  }

  /** What both read. */
  ghost function Common(a: string, h: string, b: string): string {
    if |Left(a, h, b)| <= |b| then Left(a, h, b) else b
  }

  lemma OneEndsTheOther(a: string, h: string, b: string)
    ensures |Left(a, h, b)| <= |b| ==> Extra(a, h, b) + Left(a, h, b) == b
    ensures |Left(a, h, b)| > |b| ==> Extra(a, h, b) + b == Left(a, h, b)
    ensures !EndsOpen(a) && AllGaps(h) ==> |Left(a, h, b)| <= |b|
  {
    assert h[0..] == h;
    hide Lex, LineEnd, OpenComment, Taken, LastLexeme, AllGaps;
  }

  /** One gap may stand for another exactly unless it takes a dash before it, or what only one of the two texts has
      left to read, if a comment runs on, is more than white space, comments and a semicolon dropped at the end. What
      runs on is asked to stop between two lexemes; ReplacementInGeneral covers the rest. */
  lemma ReplacementIsExact(a: string, g: string, h: string, b: string)
    requires AllGaps(g) && AllGaps(h) && Joins(a, g + b) && Joins(g, b)
    requires Joins(Extra(a, h, b), Common(a, h, b))
    ensures Lex(a).Some? && Lex(Extra(a, h, b)).Some? && (Lex(b).Some? <==> Lex(Common(a, h, b)).Some?)
    ensures Normalize(a + g + b) == Normalize(a + h + b) <==>
            || Lex(b).None?
            || (!LosesDash(a, h)
                && Negligible(Lex(a).value, Lex(Extra(a, h, b)).value, Lex(Common(a, h, b)).value))
  {
    ReplacementInGeneral(a, g, h, b);
    OneEndsTheOther(a, h, b);
    var extra, common, left := Extra(a, h, b), Common(a, h, b), Left(a, h, b);
    JoinedLex(extra, common);
    var ta, te := Lex(a).value, Lex(extra).value;
    if Lex(common).Some? {
      if LosesDash(a, h) {
        LastDash(a);
        DashIsLast(a);
        LostDash(Lex(Kept(a, h)).value, te, Lex(common).value);
      } else {
        ExtraIsExact(ta, te, Lex(common).value);
      }
    }
    hide Lex, Joins, AllGaps, Left, Extra, Common, Tidy, Negligible;
  }

  lemma DashIsLast(a: string)
    requires a != "" && Lex(a).Some? && LastLexeme(a) == "-"
    ensures Lex(a[..|a| - 1]).Some? && Lex(a).value == Lex(a[..|a| - 1]).value + [Plain('-')]
    ensures !EndsOpen(a)
  {
    LastDash(a);
    JoinedLex(a[..|a| - 1], "-");
    assert !EndsOpen(a);
    assert "-"[1..] == "" && Lex("") == Some([]);
    ReadOn("-", Plain('-'), 1);
    hide Lex, First, LastLexeme, EndsOpen, Joins;
    assert [Plain('-')] + [] == [Plain('-')];
  }

  // ----- The three ways, each by an input -----

  lemma NormalizesTo(s: string, ts: seq<Token>, rendered: string, out: string)
    requires Lex(s) == Some(ts) && Render(ts) == rendered && Trim(rendered) == out && Trim(out) == out
        && !EndsInSemicolon(out)
    ensures Normalize(s) == Some(out)
  {
  }

  lemma DashKept()
    ensures Normalize("- ") == Some("-")
  {
    var dash := Plain('-');
    assert [Gap] + [] == [Gap] && [dash] + [Gap] == [dash, Gap] && [] + [dash] == [dash];
    LexStep(" ", Gap, 1, "", []);
    LexStep("- ", dash, 1, " ", [Gap]);
    RenderAppend([], dash);
    RenderAppend([dash], Gap);
    assert Trim("- ") == "-" && Trim("-") == "-" by {
      assert "- "[..1] == "-";
      assert TrimRight("-") == "-";
    }
    NormalizesTo("- ", [dash, Gap], "- ", "-");
  }

  lemma DashSwallowed()
    ensures Normalize("---") == Some("")
  {
    assert [Gap] + [] == [Gap] && [] + [Gap] == [Gap];
    assert LineEnd("---", 3) == 3 && LineEnd("---", 2) == 3;
    LexStep("---", Gap, 3, "", []);
    RenderAppend([], Gap);
    assert Trim(" ") == "" by { assert " "[1..] == ""; }
    NormalizesTo("---", [Gap], " ", "");
  }

  /** The boundary matters: put where a dash stands before it, a line comment swallows the dash a space would keep. */
  lemma GluedCommentSwallows()
    ensures Normalize("- ") == Some("-") && Normalize("---") == Some("")
  {
    DashKept();
    DashSwallowed();
    hide Normalize;
  }

  lemma TwoWords()
    ensures Normalize("x y") == Some("x y")
  {
    var x, y := Plain('x'), Plain('y');
    assert [y] + [] == [y] && [Gap] + [y] == [Gap, y] && [x] + [Gap, y] == [x, Gap, y];
    assert [] + [x] == [x] && [x] + [Gap] == [x, Gap] && [x, Gap] + [y] == [x, Gap, y];
    LexStep("y", y, 1, "", []);
    LexStep(" y", Gap, 1, "y", [y]);
    LexStep("x y", x, 1, " y", [Gap, y]);
    RenderAppend([], x);
    RenderAppend([x], Gap);
    RenderAppend([x, Gap], y);
    assert Trim("x y") == "x y";
    NormalizesTo("x y", [x, Gap, y], "x y", "x y");
  }

  lemma OneWord()
    ensures Normalize("x--y") == Some("x")
  {
    var x := Plain('x');
    assert [Gap] + [] == [Gap] && [x] + [Gap] == [x, Gap] && [] + [x] == [x];
    assert LineEnd("--y", 3) == 3 && LineEnd("--y", 2) == 3;
    LexStep("--y", Gap, 3, "", []);
    LexStep("x--y", x, 1, "--y", [Gap]);
    RenderAppend([], x);
    RenderAppend([x], Gap);
    assert Trim("x ") == "x" && Trim("x") == "x" by {
      assert "x "[..1] == "x";
      assert TrimRight("x") == "x";
    }
    NormalizesTo("x--y", [x, Gap], "x ", "x");
  }

  /** A line comment in place of a space takes the word after it. */
  lemma CommentRunsOn()
    ensures Normalize("x y") == Some("x y") && Normalize("x--y") == Some("x")
  {
    TwoWords();
    OneWord();
    hide Normalize;
  }

  lemma CommentEndsLex()
    ensures Lex("--c\ny") == Some([Gap, Gap, Plain('y')])
  {
    var y := Plain('y');
    assert [y] + [] == [y] && [Gap] + [y] == [Gap, y] && [Gap] + [Gap, y] == [Gap, Gap, y];
    assert LineEnd("--c\ny", 3) == 3 && LineEnd("--c\ny", 2) == 3;
    LexStep("y", y, 1, "", []);
    LexStep("\ny", Gap, 1, "y", [y]);
    LexStep("--c\ny", Gap, 3, "\ny", [Gap, y]);
  }

  lemma CommentEnds()
    ensures Normalize("--c\ny") == Some("y")
  {
    var y := Plain('y');
    assert [] + [Gap] == [Gap] && [Gap] + [Gap] == [Gap, Gap] && [Gap, Gap] + [y] == [Gap, Gap, y];
    CommentEndsLex();
    hide Lex, First;
    RenderAppend([], Gap);
    RenderAppend([Gap], Gap);
    RenderAppend([Gap, Gap], y);
    hide Render;
    assert Trim(" y") == "y" && Trim("y") == "y" by {
      assert " y"[1..] == "y";
      assert TrimRight("y") == "y";
    }
    NormalizesTo("--c\ny", [Gap, Gap, y], " y", "y");
  }

  lemma CommentStays()
    ensures Normalize("--c y") == Some("")
  {
    var s := "--c y";
    assert [Gap] + [] == [Gap] && [] + [Gap] == [Gap];
    assert LineEnd(s, 5) == 5 && LineEnd(s, 4) == 5 && LineEnd(s, 3) == 5 && LineEnd(s, 2) == 5;
    LexStep(s, Gap, 5, "", []);
    RenderAppend([], Gap);
    assert Trim(" ") == "" by { assert " "[1..] == ""; }
    NormalizesTo(s, [Gap], " ", "");
  }

  /** A space in place of the line feed that ends a comment leaves the word after it in the comment. */
  lemma CommentNeedsItsLineFeed()
    ensures Normalize("--c\ny") == Some("y") && Normalize("--c y") == Some("")
  {
    CommentEnds();
    CommentStays();
    hide Normalize;
  }
}
