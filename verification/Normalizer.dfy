/** The SQL normaliser of the migration runner: a small lexer that lower-cases and collapses what stands outside quotes
    and keeps what stands inside them. */
module Normalizer {
  import opened Domain

  // ----- Characters -----

  /** White space as the regular expression class and `trim` know it. */
  predicate IsSpace(c: char) {
    c in {' ', '\t', '\n', '\r', '\U{0b}', '\U{0c}', '\U{a0}', '\U{1680}', '\U{2028}', '\U{2029}', '\U{202f}',
        '\U{205f}', '\U{3000}', '\U{feff}'}
    || '\U{2000}' <= c <= '\U{200a}'
  }

  predicate IsQuote(c: char) {
    c == '\'' || c == '"'
  }

  function Lower(c: char): char {
    if 'A' <= c <= 'Z' then c - 'A' + 'a' else c
  }

  // ----- Lexemes -----

  datatype Token = Quoted(text: string) | Gap | Plain(c: char)

  /** One token and the text it takes; `Unterminated` is the error of a quote that never closes. */
  datatype Lexeme = Lexeme(tok: Token, len: nat) | Unterminated

  /** Just past the closing quote, searching from `j`; a doubled quote is an escape. */
  function QuoteEnd(s: string, j: nat, q: char): (r: Option<nat>)
    ensures r.Some? ==> j < r.value <= |s|
    decreases |s| - j
  {
    if j >= |s| then None
    else if s[j] != q then QuoteEnd(s, j + 1, q)
    else if j + 1 < |s| && s[j + 1] == q then QuoteEnd(s, j + 2, q)
    else Some(j + 1)
  }

  /** The next line feed at or after `j`, or the end. */
  function LineEnd(s: string, j: nat): (r: nat)
    requires j <= |s|
    ensures j <= r <= |s|
    decreases |s| - j
  {
    if j == |s| || s[j] == '\n' then j else LineEnd(s, j + 1)
  }

  /** Just past the next end of comment at or after `j`, or the end. */
  function BlockEnd(s: string, j: nat): (r: nat)
    requires j <= |s|
    ensures j <= r <= |s|
    decreases |s| - j
  {
    if j + 1 >= |s| then |s|
    else if s[j] == '*' && s[j + 1] == '/' then j + 2
    else BlockEnd(s, j + 1)
  }

  predicate StartsLine(s: string) {
    |s| >= 2 && s[0] == '-' && s[1] == '-'
  }

  predicate StartsBlock(s: string) {
    |s| >= 2 && s[0] == '/' && s[1] == '*'
  }

  function First(s: string): (r: Lexeme)
    requires s != ""
    ensures r.Lexeme? ==> 0 < r.len <= |s|
  {
    if IsQuote(s[0]) then
      match QuoteEnd(s, 1, s[0])
      case Some(e) => Lexeme(Quoted(s[..e]), e)
      case None => Unterminated
    else if StartsLine(s) then Lexeme(Gap, LineEnd(s, 2))
    else if StartsBlock(s) then Lexeme(Gap, BlockEnd(s, 2))
    else if IsSpace(s[0]) then Lexeme(Gap, 1)
    else Lexeme(Plain(s[0]), 1)
  }

  function Lex(s: string): Option<seq<Token>>
    decreases |s|
  {
    if s == "" then Some([]) else
    match First(s)
    case Unterminated => None
    case Lexeme(tok, len) =>
      match Lex(s[len..])
      case None => None
      case Some(rest) => Some([tok] + rest)
  }

  // ----- The normal form -----

  /** What is appended for a token; `space` says that a space was just written. */
  function RenderOne(t: Token, space: bool): string {
    match t
    case Quoted(text) => text
    case Gap => if space then "" else " "
    case Plain(c) => [Lower(c)]
  }

  predicate AtGap(seen: seq<Token>) {
    seen != [] && seen[|seen| - 1] == Gap
  }

  function Render(ts: seq<Token>): string {
    if ts == [] then "" else
    var before := ts[..|ts| - 1];
    Render(before) + RenderOne(ts[|ts| - 1], AtGap(before))
  }

  function TrimLeft(s: string): string {
    if s != "" && IsSpace(s[0]) then TrimLeft(s[1..]) else s
  }

  function TrimRight(s: string): string {
    if s != "" && IsSpace(s[|s| - 1]) then TrimRight(s[..|s| - 1]) else s
  }

  function Trim(s: string): string {
    TrimRight(TrimLeft(s))
  }

  predicate EndsInSemicolon(s: string) {
    s != "" && s[|s| - 1] == ';'
  }

  function DropSemicolon(s: string): string {
    if EndsInSemicolon(s) then s[..|s| - 1] else s
  }

  /** None for a text with an unterminated quote. */
  function Normalize(s: string): Option<string> {
    match Lex(s)
    case None => None
    case Some(ts) => Some(Trim(DropSemicolon(Trim(Render(ts)))))
  }

  // ----- The loops -----

  method EndOfQuoted(sql: string, start: nat, quote: char) returns (r: Option<nat>)
    requires start < |sql|
    ensures r == QuoteEnd(sql, start + 1, quote)
  {
    var j := start + 1;
    while j < |sql|
      invariant j <= |sql| + 1 && QuoteEnd(sql, start + 1, quote) == QuoteEnd(sql, j, quote)
    {
      if sql[j] == quote {
        if j + 1 < |sql| && sql[j + 1] == quote {
          j := j + 2;
          continue;
        }
        return Some(j + 1);
      }
      j := j + 1;
    }
    return None;
  }

  lemma {:induction false} QuoteEndShift(s: string, i: nat, j: nat, q: char)
    requires i <= j && i <= |s|
    ensures QuoteEnd(s[i..], j - i, q) ==
            match QuoteEnd(s, j, q) case Some(e) => Some((e - i) as nat) case None => None
    decreases |s| - j
  {
    if j < |s| {
      assert s[i..][j - i] == s[j];
      if s[j] != q { QuoteEndShift(s, i, j + 1, q); }
      else if j + 1 < |s| && s[j + 1] == q { QuoteEndShift(s, i, j + 2, q); }
    }
  }

  lemma {:induction false} LineEndShift(s: string, i: nat, j: nat)
    requires i <= j <= |s|
    ensures LineEnd(s[i..], j - i) == LineEnd(s, j) - i
    decreases |s| - j
  {
    if j < |s| && s[j] != '\n' { LineEndShift(s, i, j + 1); }
  }

  lemma {:induction false} BlockEndShift(s: string, i: nat, j: nat)
    requires i <= j <= |s|
    ensures BlockEnd(s[i..], j - i) == BlockEnd(s, j) - i
    decreases |s| - j
  {
    if j + 1 < |s| && !(s[j] == '*' && s[j + 1] == '/') { BlockEndShift(s, i, j + 1); }
  }

  lemma RenderAppend(ts: seq<Token>, t: Token)
    ensures Render(ts + [t]) == Render(ts) + RenderOne(t, AtGap(ts))
  {
    assert (ts + [t])[..|ts|] == ts;
  }

  /** `seen` are the tokens of the text before `i`. */
  ghost predicate LexedTo(s: string, i: nat, seen: seq<Token>) {
    i <= |s| && Lex(s) == match Lex(s[i..]) case Some(rest) => Some(seen + rest) case None => None
  }

  lemma LexedNone(s: string)
    ensures LexedTo(s, 0, [])
  {
    assert s[0..] == s;
    match Lex(s) {
      case Some(ts) => assert [] + ts == ts;
      case None =>
    }
  }

  lemma LexedOneMore(s: string, i: nat, seen: seq<Token>, t: Token, len: nat)
    requires LexedTo(s, i, seen) && i < |s| && First(s[i..]) == Lexeme(t, len)
    ensures LexedTo(s, i + len, seen + [t])
  {
    assert s[i..][len..] == s[i + len..];
    match Lex(s[i + len..]) {
      case Some(rest) => assert seen + ([t] + rest) == (seen + [t]) + rest;
      case None =>
    }
  }

  /** Where a block comment that opens at `i` ends. */
  method FindBlockEnd(sql: string, i: nat) returns (r: nat)
    requires i + 2 <= |sql|
    ensures r == BlockEnd(sql, i + 2)
  {
    var j := i + 2;
    while j + 1 < |sql| && !(sql[j] == '*' && sql[j + 1] == '/')
      invariant i + 2 <= j <= |sql| && BlockEnd(sql, i + 2) == BlockEnd(sql, j)
    {
      j := j + 1;
    }
    r := if j + 1 < |sql| then j + 2 else |sql|;
  }

  method FindLineEnd(sql: string, i: nat) returns (r: nat)
    requires i <= |sql|
    ensures r == LineEnd(sql, i)
  {
    r := i;
    while r < |sql| && sql[r] != '\n'
      invariant i <= r <= |sql| && LineEnd(sql, i) == LineEnd(sql, r)
    {
      r := r + 1;
    }
  }

  /** Which of the five kinds of lexeme starts at `i`, and how far it reaches. */
  method NextLexeme(sql: string, i: nat) returns (r: Lexeme)
    requires i < |sql|
    ensures r == First(sql[i..])
  {
    var ch := sql[i];
    if IsQuote(ch) {
      QuoteEndShift(sql, i, i + 1, ch);
      var end := EndOfQuoted(sql, i, ch);
      if end.None? { return Unterminated; }
      assert sql[i..][..end.value - i] == sql[i..end.value];
      r := Lexeme(Quoted(sql[i..end.value]), end.value - i);
    } else if ch == '-' && i + 1 < |sql| && sql[i + 1] == '-' {
      LineEndShift(sql, i, i + 2);
      var end := FindLineEnd(sql, i + 2);
      r := Lexeme(Gap, end - i);
    } else if ch == '/' && i + 1 < |sql| && sql[i + 1] == '*' {
      BlockEndShift(sql, i, i + 2);
      var end := FindBlockEnd(sql, i);
      r := Lexeme(Gap, end - i);
    } else if IsSpace(ch) {
      r := Lexeme(Gap, 1);
    } else {
      r := Lexeme(Plain(ch), 1);
    }
  }

  method NormalizeSql(sql: string) returns (r: Option<string>)
    ensures r == Normalize(sql)
  {
    hide First, Render, QuoteEnd, LineEnd, BlockEnd;
    var out, space, i := "", false, 0;
    ghost var seen: seq<Token> := [];
    LexedNone(sql);
    assert out == Render(seen) by { RenderNone(); }
    while i < |sql|
      invariant i <= |sql| && LexedTo(sql, i, seen)
      invariant out == Render(seen) && space == AtGap(seen)
      decreases |sql| - i
    {
      var next := NextLexeme(sql, i);
      FirstFits(sql[i..]);
      match next {
        case Unterminated =>
          LexFails(sql[i..]);
          return None;
        case Lexeme(tok, len) =>
          LexedOneMore(sql, i, seen, tok, len);
          RenderAppend(seen, tok);
          out := out + RenderOne(tok, space);
          space := tok == Gap;
          seen := seen + [tok];
          i := i + len;
      }
    }
    assert sql[i..] == "" && seen + [] == seen;
    r := Some(Trim(DropSemicolon(Trim(out))));
  }

  lemma RenderNone()
    ensures Render([]) == ""
  {
  }

  lemma FirstFits(s: string)
    requires s != ""
    ensures First(s).Lexeme? ==> 0 < First(s).len <= |s|
  {
  }

  lemma LexFails(s: string)
    requires s != "" && First(s).Unterminated?
    ensures Lex(s).None?
  {
  }
}
