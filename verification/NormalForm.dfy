/** What normalising means: quoted text survives untouched, white space, comments and letter case outside it do not
    matter, and a normal form is one of itself unless it ends in a semicolon. */
module NormalForm {
  import opened Domain
  import opened Normalizer

  // ----- Tokens as text -----

  function TextOf(t: Token): string {
    match t
    case Quoted(text) => text
    case Gap => " "
    case Plain(c) => [c]
  }

  function Text(ts: seq<Token>): string {
    if ts == [] then "" else TextOf(ts[0]) + Text(ts[1..])
  }

  lemma {:induction false} TextConcat(a: seq<Token>, b: seq<Token>)
    ensures Text(a + b) == Text(a) + Text(b)
  {
    if a == [] {
      assert a + b == b;
    } else {
      TextConcat(a[1..], b);
      assert Text(a + b) == TextOf(a[0]) + Text(a[1..] + b) by { assert (a + b)[1..] == a[1..] + b; }
    }
  }

  lemma TextOne(t: Token)
    ensures Text([t]) == TextOf(t)
  {
    assert [t][1..] == [];
  }

  predicate IsQuotedRun(text: string) {
    text != "" && IsQuote(text[0]) && QuoteEnd(text, 1, text[0]) == Some(|text|)
  }

  predicate TokenOk(t: Token) {
    match t
    case Quoted(text) => IsQuotedRun(text)
    case Gap => true
    case Plain(c) => !IsSpace(c) && !IsQuote(c)
  }

  /** Written next to each other, the two would read as something else. */
  predicate Glue(a: Token, b: Token) {
    || (a == b == Plain('-'))
    || (a == Plain('/') && b == Plain('*'))
    || (a.Quoted? && b.Quoted? && a.text != "" && b.text != "" && a.text[0] == b.text[0])
  }

  ghost predicate Stable(ts: seq<Token>) {
    (forall i :: 0 <= i < |ts| ==> TokenOk(ts[i])) && forall i :: 0 < i < |ts| ==> !Glue(ts[i - 1], ts[i])
  }

  // ----- Lexing is stable and reads its own text back -----

  lemma {:induction false} QuoteEndIsLast(s: string, j: nat, q: char)
    requires QuoteEnd(s, j, q).Some?
    ensures var e := QuoteEnd(s, j, q).value;
            s[e - 1] == q && (e < |s| ==> s[e] != q) && QuoteEnd(s[..e], j, q) == Some(e)
    decreases |s| - j
  {
    var e := QuoteEnd(s, j, q).value;
    if s[j] != q { QuoteEndIsLast(s, j + 1, q); }
    else if j + 1 < |s| && s[j + 1] == q { QuoteEndIsLast(s, j + 2, q); }
  }

  lemma {:induction false} QuoteEndAppend(s: string, x: string, j: nat, q: char)
    requires QuoteEnd(s, j, q).Some? && x != ""
    ensures var e := QuoteEnd(s, j, q).value;
            QuoteEnd(s + x, j, q) == Some(e) <==> e < |s| || x[0] != q
    decreases |s| - j
  {
    if s[j] != q { QuoteEndAppend(s, x, j + 1, q); }
    else if j + 1 < |s| && s[j + 1] == q { QuoteEndAppend(s, x, j + 2, q); }
    else if j + 1 == |s| {
      if x[0] == q {
        assert (s + x)[j] == q && (s + x)[j + 1] == q;
        assert QuoteEnd(s + x, j, q) == QuoteEnd(s + x, j + 2, q);
      }
    }
  }

  lemma FirstIsOk(s: string)
    requires s != "" && First(s).Lexeme?
    ensures TokenOk(First(s).tok)
    ensures var len := First(s).len;
            len < |s| && First(s[len..]).Lexeme? ==> !Glue(First(s).tok, First(s[len..]).tok)
  {
    if IsQuote(s[0]) { QuoteEndIsLast(s, 1, s[0]); }
  }

  lemma {:induction false} LexIsStable(s: string)
    requires Lex(s).Some?
    ensures Stable(Lex(s).value)
    ensures s != "" ==> First(s).Lexeme? && Lex(s).value != [] && Lex(s).value[0] == First(s).tok
    decreases |s|
  {
    if s != "" {
      var len := First(s).len;
      LexIsStable(s[len..]);
      FirstIsOk(s);
      hide First;
    }
  }

  /** The first token of a text is read back from it. */
  lemma FirstOfText(t: Token, rest: seq<Token>)
    requires Stable([t] + rest)
    ensures TextOf(t) != ""
    ensures First(TextOf(t) + Text(rest)) == Lexeme(t, |TextOf(t)|)
  {
    var ts := [t] + rest;
    assert ts[0] == t && TokenOk(ts[0]);
    if rest != [] {
      assert ts[1] == rest[0] && TokenOk(ts[1]) && !Glue(ts[0], ts[1]);
      assert Text(rest)[0] == TextOf(rest[0])[0];
    }
    match t {
      case Quoted(text) =>
        if rest == [] {
          assert text + Text(rest) == text;
        } else {
          QuoteEndAppend(text, Text(rest), 1, text[0]);
          assert (text + Text(rest))[..|text|] == text;
        }
      case _ =>
    }
  }

  /** Reading a stable text back gives the tokens it was written from. */
  lemma {:induction false} TextReadsBack(ts: seq<Token>)
    requires Stable(ts)
    ensures Lex(Text(ts)) == Some(ts)
    decreases |ts|
  {
    if ts != [] {
      var t, rest := ts[0], ts[1..];
      assert ts == [t] + rest;
      FirstOfText(t, rest);
      assert (TextOf(t) + Text(rest))[|TextOf(t)|..] == Text(rest);
      TextReadsBack(rest);
    }
  }

  // ----- The normal form, token by token -----

  function LowerToken(t: Token): Token {
    if t.Plain? then Plain(Lower(t.c)) else t
  }

  /** Gaps collapsed to one and letters lowered. */
  function Squeeze(ts: seq<Token>): seq<Token> {
    if ts == [] then [] else
    var before, t := ts[..|ts| - 1], ts[|ts| - 1];
    if t == Gap && AtGap(before) then Squeeze(before) else Squeeze(before) + [LowerToken(t)]
  }

  lemma {:induction false} SqueezeLast(ts: seq<Token>)
    ensures ts != [] ==> Squeeze(ts) != [] && Squeeze(ts)[|Squeeze(ts)| - 1] == LowerToken(ts[|ts| - 1])
    ensures AtGap(Squeeze(ts)) <==> AtGap(ts)
    decreases |ts|
  {
    if ts != [] { SqueezeLast(ts[..|ts| - 1]); }
  }

  lemma {:induction false} RenderIsText(ts: seq<Token>)
    ensures Render(ts) == Text(Squeeze(ts))
    decreases |ts|
  {
    if ts != [] {
      var before, t := ts[..|ts| - 1], ts[|ts| - 1];
      RenderIsText(before);
      TextConcat(Squeeze(before), [LowerToken(t)]);
      TextOne(LowerToken(t));
      hide Text;
    }
  }

  predicate IsSqueezed(ts: seq<Token>) {
    && (forall i :: 0 <= i < |ts| ==> LowerToken(ts[i]) == ts[i])
    && (forall i :: 0 < i < |ts| ==> !(ts[i - 1] == Gap && ts[i] == Gap))
  }

  lemma {:induction false} SqueezeIsStable(ts: seq<Token>)
    requires Stable(ts)
    ensures Stable(Squeeze(ts)) && IsSqueezed(Squeeze(ts))
    decreases |ts|
  {
    if ts != [] {
      var before, t := ts[..|ts| - 1], ts[|ts| - 1];
      SqueezeIsStable(before);
      SqueezeLast(before);
      if before != [] { assert !Glue(before[|before| - 1], t); }
    }
  }

  lemma {:induction false} SqueezeAgain(ts: seq<Token>)
    requires IsSqueezed(ts)
    ensures Squeeze(ts) == ts
    decreases |ts|
  {
    if ts != [] {
      SqueezeAgain(ts[..|ts| - 1]);
      assert ts == ts[..|ts| - 1] + [ts[|ts| - 1]];
    }
  }

  function StripLeft(ts: seq<Token>): seq<Token> {
    if ts != [] && ts[0] == Gap then StripLeft(ts[1..]) else ts
  }

  function StripRight(ts: seq<Token>): seq<Token> {
    if AtGap(ts) then StripRight(ts[..|ts| - 1]) else ts
  }

  function Strip(ts: seq<Token>): seq<Token> {
    StripRight(StripLeft(ts))
  }

  function DropLast(ts: seq<Token>): seq<Token> {
    if ts != [] && ts[|ts| - 1] == Plain(';') then ts[..|ts| - 1] else ts
  }

  /** The tokens of the normalised text. */
  function Tidy(ts: seq<Token>): seq<Token> {
    Strip(DropLast(Strip(Squeeze(ts))))
  }

  lemma {:induction false} TrimLeftIsStrip(ts: seq<Token>)
    requires Stable(ts)
    ensures TrimLeft(Text(ts)) == Text(StripLeft(ts)) && Stable(StripLeft(ts))
    ensures IsSqueezed(ts) ==> IsSqueezed(StripLeft(ts))
    decreases |ts|
  {
    if ts != [] {
      assert TokenOk(ts[0]);
      if ts[0] == Gap {
        assert Text(ts)[1..] == Text(ts[1..]);
        TrimLeftIsStrip(ts[1..]);
      } else {
        assert Text(ts)[0] == TextOf(ts[0])[0];
      }
    }
  }

  lemma TextLast(ts: seq<Token>)
    requires ts != [] && TokenOk(ts[|ts| - 1])
    ensures Text(ts) == Text(ts[..|ts| - 1]) + TextOf(ts[|ts| - 1])
    ensures Text(ts) != "" && Text(ts)[|Text(ts)| - 1] == TextOf(ts[|ts| - 1])[|TextOf(ts[|ts| - 1])| - 1]
    ensures ts[|ts| - 1].Quoted? ==> IsQuote(Text(ts)[|Text(ts)| - 1])
  {
    var t := ts[|ts| - 1];
    assert ts == ts[..|ts| - 1] + [t];
    TextConcat(ts[..|ts| - 1], [t]);
    TextOne(t);
    if t.Quoted? { QuoteEndIsLast(t.text, 1, t.text[0]); }
  }

  lemma {:induction false} StripRightIsPrefix(ts: seq<Token>)
    ensures StripRight(ts) <= ts
    decreases |ts|
  {
    if AtGap(ts) { StripRightIsPrefix(ts[..|ts| - 1]); }
  }

  lemma TrimRightDrops(s: string)
    ensures TrimRight(s + " ") == TrimRight(s)
  {
    assert (s + " ")[..|s|] == s;
  }

  lemma {:induction false} TrimRightIsStrip(ts: seq<Token>)
    requires Stable(ts)
    ensures TrimRight(Text(ts)) == Text(StripRight(ts))
    decreases |ts|
  {
    if ts != [] {
      var front, t := ts[..|ts| - 1], ts[|ts| - 1];
      assert TokenOk(t);
      TextLast(ts);
      if t == Gap {
        assert Stable(front);
        TrimRightIsStrip(front);
        TrimRightDrops(Text(front));
        hide Text, Stable, TokenOk, TrimRight;
      } else {
        hide Text, Stable;
      }
    }
  }

  lemma {:induction false} StripLeftStarts(ts: seq<Token>)
    ensures StripLeft(ts) != [] ==> StripLeft(ts)[0] != Gap
  {
    if ts != [] && ts[0] == Gap { StripLeftStarts(ts[1..]); }
  }

  lemma {:induction false} StripRightEnds(ts: seq<Token>)
    ensures !AtGap(StripRight(ts))
    decreases |ts|
  {
    if AtGap(ts) { StripRightEnds(ts[..|ts| - 1]); }
  }

  predicate IsStripped(ts: seq<Token>) {
    ts != [] ==> ts[0] != Gap && ts[|ts| - 1] != Gap
  }

  lemma TrimIsStrip(ts: seq<Token>)
    requires Stable(ts) && IsSqueezed(ts)
    ensures Trim(Text(ts)) == Text(Strip(ts)) && Stable(Strip(ts)) && IsSqueezed(Strip(ts)) && IsStripped(Strip(ts))
    ensures IsStripped(ts) ==> Strip(ts) == ts
  {
    TrimLeftIsStrip(ts);
    TrimRightIsStrip(StripLeft(ts));
    StripRightIsPrefix(StripLeft(ts));
    StripLeftStarts(ts);
    StripRightEnds(StripLeft(ts));
  }

  lemma DropKeepsStable(ts: seq<Token>)
    requires Stable(ts) && IsSqueezed(ts)
    ensures Stable(DropLast(ts)) && IsSqueezed(DropLast(ts))
  {
  }

  lemma DropIsDrop(ts: seq<Token>)
    requires Stable(ts)
    ensures DropSemicolon(Text(ts)) == Text(DropLast(ts))
    ensures EndsInSemicolon(Text(ts)) <==> ts != [] && ts[|ts| - 1] == Plain(';')
  {
    if ts != [] {
      var front, t := ts[..|ts| - 1], ts[|ts| - 1];
      assert TokenOk(t);
      TextLast(ts);
      hide Text, Stable, TokenOk;
      if t == Plain(';') {
        assert (Text(front) + ";")[..|Text(front)|] == Text(front);
      }
    }
  }

  /** The normalised text is the text of the tidied tokens, and reads back as them. */
  lemma NormalizeIsTidy(s: string)
    requires Lex(s).Some?
    ensures Normalize(s) == Some(Text(Tidy(Lex(s).value)))
    ensures var ts := Tidy(Lex(s).value); Stable(ts) && IsSqueezed(ts) && IsStripped(ts)
    ensures Lex(Normalize(s).value) == Some(Tidy(Lex(s).value))
  {
    var ts := Lex(s).value;
    LexIsStable(s);
    RenderIsText(ts);
    SqueezeIsStable(ts);
    TrimIsStrip(Squeeze(ts));
    DropIsDrop(Strip(Squeeze(ts)));
    DropKeepsStable(Strip(Squeeze(ts)));
    TrimIsStrip(DropLast(Strip(Squeeze(ts))));
    TextReadsBack(Tidy(ts));
    hide Stable, IsSqueezed, Text, Squeeze, Render, Trim, Strip, DropLast, DropSemicolon;
  }

  // ----- Quoted text survives -----

  /** The quoted runs in order. */
  function Quotes(ts: seq<Token>): seq<string> {
    if ts == [] then [] else
    Quotes(ts[..|ts| - 1]) + (if ts[|ts| - 1].Quoted? then [ts[|ts| - 1].text] else [])
  }

  lemma {:induction false} QuotesConcat(a: seq<Token>, b: seq<Token>)
    ensures Quotes(a + b) == Quotes(a) + Quotes(b)
    decreases |b|
  {
    if b == [] {
      assert a + b == a;
    } else {
      var front := b[..|b| - 1];
      QuotesConcat(a, front);
      assert (a + b)[..|a + b| - 1] == a + front;
      assert (a + b)[|a + b| - 1] == b[|b| - 1];
    }
  }

  lemma {:induction false} SqueezeKeepsQuotes(ts: seq<Token>)
    ensures Quotes(Squeeze(ts)) == Quotes(ts)
    decreases |ts|
  {
    if ts != [] {
      SqueezeKeepsQuotes(ts[..|ts| - 1]);
      var t := LowerToken(ts[|ts| - 1]);
      assert (Squeeze(ts[..|ts| - 1]) + [t])[..|Squeeze(ts[..|ts| - 1])|] == Squeeze(ts[..|ts| - 1]);
    }
  }

  lemma {:induction false} StripLeftKeepsQuotes(ts: seq<Token>)
    ensures Quotes(StripLeft(ts)) == Quotes(ts)
  {
    if ts != [] && ts[0] == Gap {
      StripLeftKeepsQuotes(ts[1..]);
      QuotesConcat([Gap], ts[1..]);
      assert ts == [Gap] + ts[1..];
      assert [Gap][..0] == [];
    }
  }

  lemma {:induction false} StripRightKeepsQuotes(ts: seq<Token>)
    ensures Quotes(StripRight(ts)) == Quotes(ts)
    decreases |ts|
  {
    if AtGap(ts) { StripRightKeepsQuotes(ts[..|ts| - 1]); }
  }

  lemma TidyKeepsQuotes(ts: seq<Token>)
    ensures Quotes(Tidy(ts)) == Quotes(ts)
  {
    var a := StripLeft(Squeeze(ts));
    var b := StripRight(a);
    var c := DropLast(b);
    SqueezeKeepsQuotes(ts);
    StripLeftKeepsQuotes(Squeeze(ts));
    StripRightKeepsQuotes(a);
    assert Quotes(c) == Quotes(b);
    StripLeftKeepsQuotes(c);
    StripRightKeepsQuotes(StripLeft(c));
  }

  /** The quoted runs of the output are exactly those of the input, in order. */
  lemma QuotedRunsSurvive(s: string)
    requires Normalize(s).Some?
    ensures Lex(s).Some? && Lex(Normalize(s).value).Some?
    ensures Quotes(Lex(Normalize(s).value).value) == Quotes(Lex(s).value)
  {
    NormalizeIsTidy(s);
    TidyKeepsQuotes(Lex(s).value);
  }

  /** What a quoted run is: a quote, characters among which that quote occurs only doubled, and the closing quote,
      which no further quote follows. */
  ghost predicate Doubled(body: string, q: char)
    decreases |body|
  {
    || body == ""
    || (body[0] != q && Doubled(body[1..], q))
    || (|body| >= 2 && body[0] == body[1] == q && Doubled(body[2..], q))
  }

  lemma {:induction false} QuotedBody(s: string, j: nat, q: char)
    requires j <= |s|
    ensures QuoteEnd(s, j, q).Some? ==> Doubled(s[j..QuoteEnd(s, j, q).value - 1], q)
    decreases |s| - j
  {
    if j < |s| && QuoteEnd(s, j, q).Some? {
      var e := QuoteEnd(s, j, q).value;
      if s[j] != q {
        QuotedBody(s, j + 1, q);
        if j < e - 1 { assert s[j..e - 1][1..] == s[j + 1..e - 1]; }
      } else if j + 1 < |s| && s[j + 1] == q {
        QuotedBody(s, j + 2, q);
        assert s[j..e - 1][2..] == s[j + 2..e - 1];
      }
    }
  }

  lemma SliceOfPrefix(s: string, i: nat, e: nat)
    requires i < e <= |s|
    ensures s[..e][i..e - 1] == s[i..e - 1]
  {
  }

  lemma QuotedRunsAreQuoted(s: string)
    requires s != "" && First(s).Lexeme? && First(s).tok.Quoted?
    ensures var text := First(s).tok.text; var q := s[0];
            && IsQuote(q) && |text| >= 2 && text == s[..|text|] && text[|text| - 1] == q
            && Doubled(text[1..|text| - 1], q)
            && (|text| < |s| ==> s[|text|] != q)
  {
    QuoteEndIsLast(s, 1, s[0]);
    QuotedBody(s, 1, s[0]);
    SliceOfPrefix(s, 1, First(s).len);
  }

  lemma {:induction false} DoubledEnds(body: string, q: char, rest: string, head: string)
    requires Doubled(body, q) && (rest == "" || rest[0] != q)
    ensures QuoteEnd(head + body + [q] + rest, |head|, q) == Some(|head| + |body| + 1)
    decreases |body|
  {
    var s := head + body + [q] + rest;
    if body != "" {
      assert s[|head|] == body[0];
      if body[0] != q {
        assert head + [body[0]] + body[1..] == head + body;
        DoubledEnds(body[1..], q, rest, head + [body[0]]);
      } else {
        assert s[|head| + 1] == body[1];
        assert head + body[..2] + body[2..] == head + body;
        DoubledEnds(body[2..], q, rest, head + body[..2]);
      }
    } else {
      assert s[|head|] == q;
      if rest != "" { assert s[|head| + 1] == rest[0]; }
    }
  }

  /** Conversely, a quote, such characters and a closing quote that none follows are read as one quoted run. */
  lemma QuotedRunIsRead(q: char, body: string, rest: string)
    requires IsQuote(q) && Doubled(body, q) && (rest == "" || rest[0] != q)
    ensures First([q] + body + [q] + rest) == Lexeme(Quoted([q] + body + [q]), |body| + 2)
  {
    var s := [q] + body + [q] + rest;
    DoubledEnds(body, q, rest, [q]);
    assert s[0] == q && s[..|body| + 2] == [q] + body + [q];
  }

  // ----- Fixpoints -----

  lemma {:induction false} TrimShrinks(s: string)
    ensures |TrimLeft(s)| <= |s| && |TrimRight(s)| <= |s|
    decreases |s|
  {
    if s != "" {
      TrimShrinks(s[1..]);
      TrimShrinks(s[..|s| - 1]);
    }
  }

  /** A normal form is its own normal form exactly when it does not end in a semicolon. */
  lemma FixpointExactly(s: string)
    requires Normalize(s).Some?
    ensures Normalize(Normalize(s).value) == Normalize(s) <==> !EndsInSemicolon(Normalize(s).value)
  {
    NormalizeIsTidy(s);
    var t, ts := Normalize(s).value, Tidy(Lex(s).value);
    RenderIsText(ts);
    SqueezeAgain(ts);
    TrimIsStrip(ts);
    assert Normalize(t) == Some(Trim(DropSemicolon(t)));
    if EndsInSemicolon(t) {
      TrimShrinks(t[..|t| - 1]);
      TrimShrinks(TrimLeft(t[..|t| - 1]));
    }
  }

  lemma LexStep(s: string, t: Token, len: nat, rest: string, ts: seq<Token>)
    requires s != "" && First(s) == Lexeme(t, len) && s[len..] == rest && Lex(rest) == Some(ts)
    ensures Lex(s) == Some([t] + ts)
  {
  }

  /** So normalising is not idempotent: one trailing semicolon is dropped each time. */
  lemma NotIdempotent()
    ensures Normalize(";;") == Some(";") && Normalize(";") == Some("")
  {
    var t := Plain(';');
    assert [] + [t] == [t] && [t] + [t] == [t, t] && [t] + [] == [t];
    LexStep(";", t, 1, "", []);
    LexStep(";;", t, 1, ";", [t]);
    RenderAppend([], t);
    RenderAppend([t], t);
    assert Render([t]) == ";" && Render([t, t]) == ";;";
    assert Trim(";;") == ";;" && ";;"[..1] == ";";
  }

  // ----- What does not matter outside quotes -----

  /** Reading `a` with `x` after it, every lexeme of `a` stays what it was. */
  ghost predicate Joins(a: string, x: string)
    decreases |a|
  {
    a == "" || (First(a).Lexeme? && First(a + x) == First(a) && Joins(a[First(a).len..], x))
  }

  lemma LexStuck(s: string, len: nat)
    requires s != "" && First(s).Lexeme? && First(s).len == len && Lex(s[len..]).None?
    ensures Lex(s).None?
  {
  }

  lemma {:induction false} JoinedLex(a: string, x: string)
    requires Joins(a, x)
    ensures Lex(a).Some?
    ensures Lex(a + x) == match Lex(x) case Some(ts) => Some(Lex(a).value + ts) case None => None
    decreases |a|
  {
    if a == "" {
      assert a + x == x;
      if Lex(x).Some? { assert [] + Lex(x).value == Lex(x).value; }
    } else {
      JoinedLex(a[First(a).len..], x);
      JoinStep(a, x, First(a).tok, First(a).len, a[First(a).len..]);
    }
  }

  lemma JoinStep(a: string, x: string, t: Token, len: nat, rest: string)
    requires a != "" && First(a) == First(a + x) == Lexeme(t, len) && len <= |a| && a[len..] == rest && Lex(rest).Some?
    requires Lex(rest + x) == match Lex(x) case Some(ts) => Some(Lex(rest).value + ts) case None => None
    ensures Lex(a) == Some([t] + Lex(rest).value)
    ensures Lex(a + x) == match Lex(x) case Some(ts) => Some(Lex(a).value + ts) case None => None
  {
    hide First, Lex;
    assert (a + x)[len..] == rest + x;
    LexStep(a, t, len, rest, Lex(rest).value);
    if Lex(x).Some? {
      LexStep(a + x, t, len, rest + x, Lex(rest + x).value);
      Reassociate([t], Lex(rest).value, Lex(x).value);
    } else {
      LexStuck(a + x, len);
    }
  }

  /** The text of the last lexeme. */
  function LastLexeme(a: string): (r: string)
    requires a != "" && Lex(a).Some?
    ensures r != ""
    decreases |a|
  {
    var len := First(a).len;
    if len == |a| then a else LastLexeme(a[len..])
  }

  /** A block comment that has its end. */
  predicate Closed(l: string) {
    |l| >= 4 && l[|l| - 2] == '*' && l[|l| - 1] == '/'
  }

  /** What may come after a lexeme without changing it: not the quote it closed with, not a second dash, not the star
      that would open a comment, and nothing but a line feed inside a comment that is still open. */
  predicate MayFollow(l: string, c: char)
    requires l != ""
  {
    if IsQuote(l[0]) then c != l[0]
    else if StartsLine(l) then c == '\n'
    else if StartsBlock(l) then Closed(l)
    else if l == "-" then c != '-'
    else if l == "/" then c != '*'
    else true
  }

  lemma {:induction false} LineEndAppend(s: string, x: string, j: nat)
    requires j <= |s| && x != ""
    ensures LineEnd(s + x, j) == LineEnd(s, j) <==> LineEnd(s, j) < |s| || x[0] == '\n'
    decreases |s| - j
  {
    if j < |s| && s[j] != '\n' { LineEndAppend(s, x, j + 1); }
  }

  lemma {:induction false} BlockEndAppend(s: string, x: string, j: nat)
    requires j <= |s| && x != ""
    ensures BlockEnd(s + x, j) == BlockEnd(s, j) <==>
            BlockEnd(s, j) < |s| || (|s| >= j + 2 && s[|s| - 2] == '*' && s[|s| - 1] == '/')
    decreases |s| - j
  {
    if j + 1 < |s| && !(s[j] == '*' && s[j + 1] == '/') { BlockEndAppend(s, x, j + 1); }
  }

  lemma FirstAppend(a: string, x: string)
    requires a != "" && x != "" && First(a).Lexeme?
    ensures First(a + x) == First(a) <==> First(a).len < |a| || MayFollow(a, x[0])
  {
    var len := First(a).len;
    assert (a + x)[0] == a[0];
    if IsQuote(a[0]) {
      QuoteEndAppend(a, x, 1, a[0]);
      assert (a + x)[..len] == a[..len];
    } else if StartsLine(a) {
      LineEndAppend(a, x, 2);
    } else if StartsBlock(a) {
      BlockEndAppend(a, x, 2);
    } else if |a| == 1 {
      assert (a + x)[1] == x[0];
      assert a == [a[0]];
    }
  }

  /** Two texts read side by side as they read apart exactly when what follows may follow. */
  lemma {:induction false} JoinsExactly(a: string, x: string)
    requires a != "" && x != ""
    ensures Joins(a, x) <==> Lex(a).Some? && MayFollow(LastLexeme(a), x[0])
    decreases |a|
  {
    if First(a).Lexeme? {
      var len := First(a).len;
      FirstAppend(a, x);
      if len < |a| {
        JoinsExactly(a[len..], x);
      } else {
        assert a[len..] == "";
      }
    }
  }

  ghost predicate AllGaps(g: string) {
    g != "" && Lex(g).Some? && forall t :: t in Lex(g).value ==> t == Gap
  }

  lemma {:induction false} SqueezeConcat(a: seq<Token>, b: seq<Token>, c: seq<Token>)
    requires Squeeze(a) == Squeeze(b)
    ensures Squeeze(a + c) == Squeeze(b + c)
    decreases |c|
  {
    if c == [] {
      assert a + c == a && b + c == b;
    } else {
      var front, t := c[..|c| - 1], c[|c| - 1];
      SqueezeConcat(a, b, front);
      SqueezeLast(a + front);
      SqueezeLast(b + front);
      SqueezeAppend(a + front, t);
      SqueezeAppend(b + front, t);
      hide Squeeze;
      assert c == front + [t];
      Reassociate(a, front, [t]);
      Reassociate(b, front, [t]);
    }
  }

  lemma {:induction false} SqueezeGaps(a: seq<Token>, g: seq<Token>)
    requires g != [] && forall t :: t in g ==> t == Gap
    ensures Squeeze(a + g) == Squeeze(a + [Gap])
    decreases |g|
  {
    var front := g[..|g| - 1];
    assert g[|g| - 1] in g;
    forall t | t in front ensures t == Gap { assert t in g; }
    assert (a + g)[..|a + g| - 1] == a + front && (a + [Gap])[..|a|] == a;
    if front == [] {
      assert a + front == a;
    } else {
      SqueezeGaps(a, front);
      assert (a + front)[|a + front| - 1] == front[|front| - 1];
      assert front[|front| - 1] in g;
    }
  }

  lemma SameSqueeze(s: string, z: string)
    requires Lex(s).Some? <==> Lex(z).Some?
    requires Lex(s).Some? ==> Squeeze(Lex(s).value) == Squeeze(Lex(z).value)
    ensures Normalize(s) == Normalize(z)
  {
    if Lex(s).Some? {
      RenderIsText(Lex(s).value);
      RenderIsText(Lex(z).value);
    }
  }

  lemma Reassociate<T>(a: seq<T>, b: seq<T>, c: seq<T>)
    ensures (a + b) + c == a + (b + c)
  {
  }

  lemma GapLex(a: string, g: string, b: string)
    requires AllGaps(g) && Joins(a, g + b) && Joins(g, b)
    ensures Lex(a).Some?
    ensures Lex(a + g + b) == match Lex(b) case Some(ts) => Some(Lex(a).value + Lex(g).value + ts) case None => None
  {
    JoinedLex(g, b);
    JoinedLex(a, g + b);
    hide Lex, Joins, AllGaps;
    Reassociate(a, g, b);
    if Lex(b).Some? { Reassociate(Lex(a).value, Lex(g).value, Lex(b).value); }
  }

  /** Between lexemes any white space and comments are worth one another. */
  lemma GapsAreInterchangeable(a: string, g: string, h: string, b: string)
    requires AllGaps(g) && AllGaps(h)
    requires Joins(a, g + b) && Joins(g, b) && Joins(a, h + b) && Joins(h, b)
    ensures Normalize(a + g + b) == Normalize(a + h + b)
  {
    GapLex(a, g, b);
    GapLex(a, h, b);
    if Lex(b).Some? {
      var ta, tg, th, tb := Lex(a).value, Lex(g).value, Lex(h).value, Lex(b).value;
      SqueezeGaps(ta, tg);
      SqueezeGaps(ta, th);
      SqueezeConcat(ta + tg, ta + th, tb);
    }
    SameSqueeze(a + g + b, a + h + b);
  }

  lemma PlainLex(a: string, c: char, b: string)
    requires 'a' <= c <= 'z' || 'A' <= c <= 'Z'
    requires Joins(a, [c] + b)
    ensures Lex(a).Some?
    ensures Lex(a + [c] + b) == match Lex(b) case Some(ts) => Some(Lex(a).value + [Plain(c)] + ts) case None => None
  {
    JoinedLex(a, [c] + b);
    Reassociate(a, [c], b);
    assert First([c] + b) == Lexeme(Plain(c), 1) && ([c] + b)[1..] == b;
    if Lex(b).Some? { Reassociate(Lex(a).value, [Plain(c)], Lex(b).value); }
  }

  lemma CapitalLowers(c: char, d: char)
    requires 'A' <= c <= 'Z' && d as int == c as int + 32
    ensures 'a' <= d <= 'z' && Lower(c) == d && Lower(d) == d
  {
  }

  /** A capital outside quotes may be written small. */
  lemma LetterCaseDoesNotMatter(a: string, c: char, d: char, b: string)
    requires 'A' <= c <= 'Z' && d as int == c as int + 32
    requires Joins(a, [c] + b)
    ensures Normalize(a + [c] + b) == Normalize(a + [d] + b)
  {
    CapitalLowers(c, d);
    hide Normalize, Lower, Joins;
    SameLowered(a, c, d, b);
  }

  lemma SameLowered(a: string, c: char, d: char, b: string)
    requires ('a' <= c <= 'z' || 'A' <= c <= 'Z') && ('a' <= d <= 'z' || 'A' <= d <= 'Z') && Lower(c) == Lower(d)
    requires Joins(a, [c] + b)
    ensures Normalize(a + [c] + b) == Normalize(a + [d] + b)
  {
    if a != "" {
      JoinsExactly(a, [c] + b);
      JoinsExactly(a, [d] + b);
    }
    PlainLex(a, c, b);
    PlainLex(a, d, b);
    hide Lex, Joins, Normalize;
    if Lex(b).Some? {
      var ta := Lex(a).value;
      SqueezeAppend(ta, Plain(c));
      SqueezeAppend(ta, Plain(d));
      SqueezeConcat(ta + [Plain(c)], ta + [Plain(d)], Lex(b).value);
    }
    SameSqueeze(a + [c] + b, a + [d] + b);
  }

  lemma SqueezeAppend(ts: seq<Token>, t: Token)
    ensures Squeeze(ts + [t]) == if t == Gap && AtGap(ts) then Squeeze(ts) else Squeeze(ts) + [LowerToken(t)]
  {
    assert (ts + [t])[..|ts|] == ts;
  }

  // ----- What a gap is -----

  lemma OneGap(g: string)
    requires g != "" && First(g) == Lexeme(Gap, |g|)
    ensures AllGaps(g)
  {
    LexStep(g, Gap, |g|, "", []);
  }

  lemma {:induction false} LineEndAtEnd(s: string, j: nat)
    requires j <= |s| && '\n' !in s[j..]
    ensures LineEnd(s, j) == |s|
    decreases |s| - j
  {
    if j < |s| {
      assert s[j..][0] == s[j] && s[j..][1..] == s[j + 1..];
      LineEndAtEnd(s, j + 1);
    }
  }

  /** The first end of comment in `s` from `j` on is its very end. */
  ghost predicate EndsOnce(s: string, j: nat) {
    && j + 2 <= |s| && s[|s| - 2] == '*' && s[|s| - 1] == '/'
    && forall i :: j <= i < |s| - 2 ==> !(s[i] == '*' && s[i + 1] == '/')
  }

  lemma {:induction false} BlockEndAtEnd(s: string, j: nat)
    requires EndsOnce(s, j)
    ensures BlockEnd(s, j) == |s|
    decreases |s| - j
  {
    if j < |s| - 2 { BlockEndAtEnd(s, j + 1); }
  }

  /** White space is a gap, and so are a line comment and a block comment, whatever they say; so is a gap followed by a
      gap that reads apart from it. */
  lemma GapsAre(c: char, text: string, g: string, h: string)
    ensures IsSpace(c) ==> AllGaps([c])
    ensures '\n' !in text ==> AllGaps("--" + text)
    ensures EndsOnce("/*" + text + "*/", 2) ==> AllGaps("/*" + text + "*/")
    ensures AllGaps(g) && AllGaps(h) && Joins(g, h) ==> AllGaps(g + h)
  {
    if IsSpace(c) { OneGap([c]); }
    if '\n' !in text {
      var s := "--" + text;
      assert s[2..] == text;
      LineEndAtEnd(s, 2);
      OneGap(s);
    }
    if EndsOnce("/*" + text + "*/", 2) {
      var s := "/*" + text + "*/";
      assert s[0] == '/' && s[1] == '*';
      BlockEndAtEnd(s, 2);
      OneGap(s);
    }
    if AllGaps(g) && AllGaps(h) && Joins(g, h) { JoinedLex(g, h); }
  }
}
